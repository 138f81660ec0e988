// Making and erasing codebases.
module CodebaseErase {
  import opened Codebase
  import CodebaseCommit

  const MAIN := "/main.js"

  // ----- making -----------------------------------------------------------------------

  // A path for a new codebase: not that of another one, and neither under nor above it.
  ghost predicate PathFree(S: Records, path: string) {
    forall c :: Live(S, c) ==> PathOf(S, c) != path && !Under(PathOf(S, c), path) && !Under(path, PathOf(S, c))
  }

  // The same, as a search through the records.
  predicate FindsPathFree(S: Records, path: string)
    ensures FindsPathFree(S, path) <==> PathFree(S, path)
  {
    assert forall c :: Live(S, c) <==> InfoKey(c) in S && S[InfoKey(c)].Info?;
    forall k :: k in S && k.InfoKey? && S[k].Info? ==>
         S[k].path != path && !Under(S[k].path, path) && !Under(path, S[k].path)
  }

  predicate TreeIdIs(S: Records, p: string, i: nat) {
    TreeKey(p) in S && S[TreeKey(p)].TreeRec? && S[TreeKey(p)].id == i
  }

  // The record is a file or an edit with this id, or a codebase whose manifest or etags have it.
  predicate Refers(S: Records, k: Key, i: nat)
    requires k in S
  {
    || ((k.OwnKey? || k.EditKey?) && S[k] == Id(i))
    || (k.InfoKey? && S[k].Info? && (TreeIdIs(S, S[k].path + "/", i) || TreeIdIs(S, S[k].path + ETAGS, i)))
  }

  predicate Unshared(S: Records, p: string) {
    TreeKey(p) in S && S[TreeKey(p)].TreeRec? ==> forall k :: k in S ==> !Refers(S, k, S[TreeKey(p)].id)
  }

  // What earlier codebases have left where the manifest and the etags of one at this path will
  // be recorded, if anything, has ids that nothing else has. make_codebase does not look, nor
  // does it look at PathFree.
  predicate IndexFree(S: Records, path: string) {
    && Unshared(S, path + "/") && Unshared(S, path + ETAGS)
    && !(TreeKey(path + "/") in S && S[TreeKey(path + "/")].TreeRec?
         && TreeIdIs(S, path + ETAGS, S[TreeKey(path + "/")].id))
  }

  function AfterMake(S: Records, id: nat, path: string, version: string, base: nat, main: string): Records
    requires base == 0 || Live(S, base)
  {
    var T := if base == 0 then S else S[DerivedKey(base, id) := Link(VersionOf(S, base))];
    T[InfoKey(id) := Info(version, path, base, main)][PathKey(path) := Id(id)]
  }

  function AfterMakeMain(S: Records, id: nat, file: nat, text: string): Records {
    S[FileKey(file) := Content(Blob(text))][OwnKey(id, MAIN) := Id(file)]
  }

  lemma MadeCodebase(S: Records, next: nat, id: nat, path: string, version: string, base: nat, main: string)
    requires Typed(S) && CodebasesOk(S, next) && PathFree(S, path) && id == next > 0 && (base == 0 || Live(S, base))
    ensures !Live(S, id)
    ensures var T := AfterMake(S, id, path, version, base, main); Live(T, id) && CodebaseOk(T, next + 1, id)
  {
    assert Live(S, id) ==> CodebaseOk(S, next, id);
    assert base != 0 ==> CodebaseOk(S, next, base);
  }

  lemma OldCodebase(S: Records, next: nat, id: nat, path: string, version: string, base: nat, main: string, c: nat)
    requires Typed(S) && CodebasesOk(S, next) && PathFree(S, path) && id == next > 0 && (base == 0 || Live(S, base))
    requires c != id
    ensures var T := AfterMake(S, id, path, version, base, main);
      && (Live(T, c) <==> Live(S, c))
      && (Live(S, c) ==> T[InfoKey(c)] == S[InfoKey(c)] && CodebaseOk(T, next + 1, c))
  {
    assert Live(S, id) ==> CodebaseOk(S, next, id);
    assert Live(S, c) ==> CodebaseOk(S, next, c);
  }

  lemma MadePaths(S: Records, next: nat, id: nat, path: string, version: string, base: nat, main: string)
    requires Typed(S) && CodebasesOk(S, next) && PathFree(S, path) && id == next > 0 && (base == 0 || Live(S, base))
    ensures var T := AfterMake(S, id, path, version, base, main);
      forall c, d :: Live(T, c) && Live(T, d) ==> !Under(PathOf(T, c), PathOf(T, d))
  {
    var T := AfterMake(S, id, path, version, base, main);
    forall c, d | Live(T, c) && Live(T, d) ensures !Under(PathOf(T, c), PathOf(T, d)) {
      assert (c != id ==> Live(S, c)) && (d != id ==> Live(S, d));
    }
  }

  lemma MakeCodebases(S: Records, next: nat, id: nat, path: string, version: string, base: nat, main: string)
    requires Typed(S) && CodebasesOk(S, next) && PathFree(S, path) && id == next > 0 && (base == 0 || Live(S, base))
    ensures CodebasesOk(AfterMake(S, id, path, version, base, main), next + 1)
    ensures !Live(S, id) && forall c :: Live(S, c) ==> Live(AfterMake(S, id, path, version, base, main), c)
  {
    var T := AfterMake(S, id, path, version, base, main);
    MadeCodebase(S, next, id, path, version, base, main);
    MadePaths(S, next, id, path, version, base, main);
    forall c | Live(T, c) ensures CodebaseOk(T, next + 1, c) && BaseOk(T, c) {
      if c != id {
        OldCodebase(S, next, id, path, version, base, main, c);
      }
    }
    forall b, d | DerivedKey(b, d) in T ensures b != 0 && Live(T, d) && BaseOf(T, d) == b {
      assert DerivedKey(b, d) in S ==> Live(S, d);
    }
  }

  // The records left at the paths of the index become those of the new codebase.
  ghost function Claim(S: Records, use: map<nat, Use>, p: string): map<nat, Use> {
    if TreeKey(p) in S && S[TreeKey(p)].TreeRec? then use[S[TreeKey(p)].id := IndexOf(p)] else use
  }

  ghost function Claimed(S: Records, use: map<nat, Use>, path: string): map<nat, Use> {
    Claim(S, Claim(S, use, path + "/"), path + ETAGS)
  }

  lemma ClaimKeepsInv(S: Records, next: nat, use: map<nat, Use>, p: string)
    requires Inv(S, next, use) && Unshared(S, p)
    ensures Inv(S, next, Claim(S, use, p)) && IndexOk(S, Claim(S, use, p), p)
  {
    var use' := Claim(S, use, p);
    forall c, q ensures EntryOk(S, use', c, q) {
      assert EntryOk(S, use, c, q);
      assert OwnKey(c, q) in S && TreeKey(p) in S ==> !Refers(S, OwnKey(c, q), S[TreeKey(p)].id);
      assert EditKey(c, q) in S && TreeKey(p) in S ==> !Refers(S, EditKey(c, q), S[TreeKey(p)].id);
    }
    forall x | Live(S, x) ensures IndexesOk(S, use', x) {
      assert IndexesOk(S, use, x);
      assert TreeKey(p) in S ==> !Refers(S, InfoKey(x), S[TreeKey(p)].id);
    }
  }

  lemma ClaimedKeepsInv(S: Records, next: nat, use: map<nat, Use>, path: string)
    requires Inv(S, next, use) && IndexFree(S, path)
    ensures var use' := Claimed(S, use, path);
      Inv(S, next, use') && IndexOk(S, use', path + "/") && IndexOk(S, use', path + ETAGS)
  {
    ClaimKeepsInv(S, next, use, path + "/");
    ClaimKeepsInv(S, next, Claim(S, use, path + "/"), path + ETAGS);
  }

  lemma MakeKeepsInv(S: Records, next: nat, use: map<nat, Use>, id: nat, path: string, version: string, base: nat,
                     main: string)
    requires Inv(S, next, use) && PathFree(S, path) && id == next && (base == 0 || Live(S, base))
    requires IndexOk(S, use, path + "/") && IndexOk(S, use, path + ETAGS)
    ensures Inv(AfterMake(S, id, path, version, base, main), next + 1, use)
  {
    var T := AfterMake(S, id, path, version, base, main);
    MakeCodebases(S, next, id, path, version, base, main);
    forall d, p ensures EntryOk(T, use, d, p) {
      assert EntryOk(S, use, d, p);
    }
    forall x | Live(T, x) ensures IndexesOk(T, use, x) {
      if x != id {
        assert IndexesOk(S, use, x);
      }
    }
  }

  lemma NewIdIsFresh(S: Records, next: nat, use: map<nat, Use>)
    requires Inv(S, next, use)
    ensures !Live(S, next)
    ensures forall p :: OwnKey(next, p) !in S && EditKey(next, p) !in S && ErasedKey(next, p) !in S
  {
    assert Live(S, next) ==> CodebaseOk(S, next, next);
    forall p ensures OwnKey(next, p) !in S && EditKey(next, p) !in S && ErasedKey(next, p) !in S {
      assert EntryOk(S, use, next, p);
    }
  }

  // Paths of manifests and etags tell codebases apart.
  lemma IndexPathsApart(px: string, py: string)
    requires px != py
    ensures px + "/" != py + "/" && px + ETAGS != py + ETAGS && px + "/" != py + ETAGS
  {
    assert (px + "/")[..|px|] == px && (py + "/")[..|py|] == py;
    assert (px + ETAGS)[..|px + ETAGS| - 7] == px && (py + ETAGS)[..|py + ETAGS| - 7] == py;
    assert (px + "/")[|px|] != (py + ETAGS)[|py| + 6];
  }

  lemma IndexOkIsUnshared(S: Records, next: nat, use: map<nat, Use>, path: string, p: string, k: Key)
    requires Inv(S, next, use) && PathFree(S, path) && IndexOk(S, use, p) && (p == path + "/" || p == path + ETAGS)
    requires TreeKey(p) in S && k in S
    ensures S[TreeKey(p)].TreeRec? && !Refers(S, k, S[TreeKey(p)].id)
  {
    if k.OwnKey? || k.EditKey? {
      assert EntryOk(S, use, k.cb, k.path);
    } else if k.InfoKey? && S[k].Info? {
      assert Live(S, k.cb) && IndexesOk(S, use, k.cb);
      IndexPathsApart(path, PathOf(S, k.cb));
      IndexPathsApart(PathOf(S, k.cb), path);
    }
  }

  lemma IndexOkIsFree(S: Records, next: nat, use: map<nat, Use>, path: string)
    requires Inv(S, next, use) && PathFree(S, path)
    requires IndexOk(S, use, path + "/") && IndexOk(S, use, path + ETAGS)
    ensures IndexFree(S, path)
  {
    IndexPathFacts(path);
    forall p, k | (p == path + "/" || p == path + ETAGS) && TreeKey(p) in S && k in S
      ensures !Refers(S, k, S[TreeKey(p)].id)
    {
      IndexOkIsUnshared(S, next, use, path, p, k);
    }
  }

  // The records T of a repository with one codebase more, at whatever path.
  ghost predicate Makes(S: Records, T: Records, id: nat, path: string) {
    && Live(T, id) && PathOf(T, id) == path && PathKey(path) in T && T[PathKey(path)] == Id(id)
    && (forall c :: Live(S, c) ==> c != id && Live(T, c) && PathOf(T, c) == PathOf(S, c))
    && (forall p :: SameAt(S, T, TreeKey(p)))
  }

  // They are not in order unless the path is free and what was left there is nobody else's.
  lemma MakeBreaks(S: Records, next: nat, use: map<nat, Use>, T: Records, next': nat, use': map<nat, Use>, id: nat,
                   path: string)
    requires Inv(S, next, use) && Makes(S, T, id, path) && Inv(T, next', use')
    requires forall i :: i in use ==> i in use' && use'[i] == use[i]
    ensures PathFree(S, path) && IndexFree(S, path)
  {
    assert CodebaseOk(T, next', id);
    forall c | Live(S, c)
      ensures PathOf(S, c) != path && !Under(PathOf(S, c), path) && !Under(path, PathOf(S, c))
    {
      assert Live(T, c) && CodebaseOk(T, next', c);
    }
    assert IndexesOk(T, use', id);
    forall p | p == path + "/" || p == path + ETAGS ensures IndexOk(S, use, p) {
      assert SameAt(S, T, TreeKey(p));
    }
    IndexOkIsFree(S, next, use, path);
  }

  lemma MakeMainKeepsInv(S: Records, next: nat, use: map<nat, Use>, id: nat, file: nat, text: string)
    requires Inv(S, next, use) && Live(S, id)
    requires forall p :: OwnKey(id, p) !in S && EditKey(id, p) !in S && ErasedKey(id, p) !in S
    requires file in use && use[file] == FileOf(id, MAIN)
    ensures Inv(AfterMakeMain(S, id, file, text), next, use)
  {
    var T := AfterMakeMain(S, id, file, text);
    CodebasesFrame(S, T, next, next);
    TreesFrame(S, T, use, use);
    forall d, p ensures EntryOk(T, use, d, p) {
      assert EntryOk(S, use, d, p);
    }
  }

  lemma MakeRootKeepsInv(S: Records, next: nat, use: map<nat, Use>, path: string, version: string, text: string)
    requires Inv(S, next, use) && PathFree(S, path)
    requires IndexOk(S, use, path + "/") && IndexOk(S, use, path + ETAGS)
    ensures Inv(AfterMakeMain(AfterMake(S, next, path, version, 0, MAIN), next, next + 1, text), next + 2,
                use[next + 1 := FileOf(next, MAIN)])
  {
    var T := AfterMake(S, next, path, version, 0, MAIN);
    NewIdIsFresh(S, next, use);
    MakeKeepsInv(S, next, use, next, path, version, 0, MAIN);
    UseKeepsInv(T, next + 1, use, FileOf(next, MAIN));
    MakeMainKeepsInv(T, next + 2, use[next + 1 := FileOf(next, MAIN)], next, next + 1, text);
  }

  lemma DerivedRecords(S: Records, id: nat, path: string, version: string, base: nat, main: string)
    requires base != 0 && Live(S, base)
    ensures var sets: Records := map[];
      var sets' := sets[DerivedKey(base, id) := Link(VersionOf(S, base))]
                       [InfoKey(id) := Info(version, path, base, main)][PathKey(path) := Id(id)];
      (S - {}) + sets' == AfterMake(S, id, path, version, base, main)
  {
  }

  lemma RootRecords(S: Records, id: nat, file: nat, path: string, version: string, text: string)
    ensures var sets: Records := map[];
      var sets' := sets[FileKey(file) := Content(Blob(text))][OwnKey(id, MAIN) := Id(file)]
                       [InfoKey(id) := Info(version, path, 0, MAIN)][PathKey(path) := Id(id)];
      (S - {}) + sets' == AfterMakeMain(AfterMake(S, id, path, version, 0, MAIN), id, file, text)
  {
  }

  // ----- erasing ----------------------------------------------------------------------

  // The keys that make up x.
  predicate Core(S: Records, x: nat, k: Key)
    requires Live(S, x)
  {
    match k
    case InfoKey(c) => c == x
    case PathKey(p) => p == PathOf(S, x)
    case OwnKey(c, _) => c == x
    case EditKey(c, _) => c == x
    case ErasedKey(c, _) => c == x
    case DerivedKey(b, d) => b == x || d == x
    case _ => false
  }

  predicate IsFileOf(x: nat, k: Key) {
    (k.OwnKey? || k.EditKey? || k.ErasedKey?) && k.cb == x
  }

  // What erasing x may delete.
  predicate ErasedWith(S: Records, use: map<nat, Use>, x: nat, k: Key)
    requires Live(S, x)
  {
    match k
    case TreeKey(p) => Under(PathOf(S, x), p)
    case FileKey(i) =>
      i in use && (if use[i].FileOf? then use[i].cb == x else use[i].path == PathOf(S, x) + "/")
    case _ => Core(S, x, k)
  }

  ghost predicate ErasedBelow(S: Records, use: map<nat, Use>, c: nat, k: Key)
    requires Chained(S)
  {
    exists x :: Live(S, x) && Derives(S, x, c) && ErasedWith(S, use, x, k)
  }

  // The content of a committed file of x, or of a pending edit.
  ghost predicate ContentOf(S: Records, x: nat, k: Key) {
    k.FileKey? && exists p ::
      (OwnKey(x, p) in S && S[OwnKey(x, p)] == Id(k.id)) || (EditKey(x, p) in S && S[EditKey(x, p)] == Id(k.id))
  }

  // What has to go with x.
  ghost predicate Goes(S: Records, x: nat, k: Key)
    requires Live(S, x)
  {
    (k in S && Core(S, x, k)) || ContentOf(S, x, k)
  }

  // The tree records that go with x: those of its own committed files, and its manifest.
  ghost predicate TreeErased(S: Records, x: nat, p: string)
    requires Live(S, x)
  {
    var path := PathOf(S, x);
    (p == path + "/" && TreeKey(p) in S) || (path <= p && OwnKey(x, p[|path|..]) in S)
  }

  ghost predicate TreeErasedBelow(S: Records, c: nat, p: string)
    requires Chained(S)
  {
    exists x :: Live(S, x) && Derives(S, x, c) && TreeErased(S, x, p)
  }

  // The deletions take c and everything derived from it, and nothing of anything else.
  ghost predicate ErasesExactly(S: Records, use: map<nat, Use>, c: nat, dels0: set<Key>, dels: set<Key>)
    requires Chained(S)
  {
    && dels0 <= dels
    && (forall k :: k in dels ==> k in dels0 || ErasedBelow(S, use, c, k))
    && (forall x, k :: Live(S, x) && Derives(S, x, c) && Goes(S, x, k) ==> k in dels)
    && (forall p :: TreeKey(p) in dels <==> TreeKey(p) in dels0 || TreeErasedBelow(S, c, p))
  }

  lemma OthersAreKept(S: Records, next: nat, use: map<nat, Use>, c: nat, y: nat, k: Key)
    requires Inv(S, next, use) && Live(S, y) && !Derives(S, y, c)
    requires Core(S, y, k) || (k.FileKey? && k.id in use && use[k.id].FileOf? && use[k.id].cb == y)
    requires k.DerivedKey? ==> k.cb == y && k.base == BaseOf(S, y)
    ensures !ErasedBelow(S, use, c, k)
  {
    forall x | Live(S, x) && Derives(S, x, c) ensures !ErasedWith(S, use, x, k) {
      assert CodebaseOk(S, next, x) && CodebaseOk(S, next, y);
      assert BaseOk(S, y);
    }
  }

  lemma EraseCodebases(S: Records, next: nat, use: map<nat, Use>, c: nat, dels: set<Key>)
    requires Inv(S, next, use) && Live(S, c) && ErasesExactly(S, use, c, {}, dels)
    ensures CodebasesOk(S - dels, next)
    ensures forall y :: Live(S - dels, y) <==> Live(S, y) && !Derives(S, y, c)
  {
    var T := S - dels;
    forall y ensures Live(T, y) <==> Live(S, y) && !Derives(S, y, c) {
      if Live(S, y) {
        assert Core(S, y, InfoKey(y));
        if !Derives(S, y, c) {
          OthersAreKept(S, next, use, c, y, InfoKey(y));
        }
      }
    }
    forall y | Live(T, y) ensures CodebaseOk(T, next, y) && BaseOk(T, y) {
      assert CodebaseOk(S, next, y) && BaseOk(S, y);
      OthersAreKept(S, next, use, c, y, PathKey(PathOf(S, y)));
      OthersAreKept(S, next, use, c, y, DerivedKey(BaseOf(S, y), y));
      var b := BaseOf(S, y);
      if b != 0 {
        assert !Derives(S, b, c);
        OthersAreKept(S, next, use, c, b, InfoKey(b));
      }
    }
    forall y, z | Live(T, y) && Live(T, z) ensures !Under(PathOf(T, y), PathOf(T, z)) {
      assert Live(S, y) && Live(S, z);
    }
    forall b, d | DerivedKey(b, d) in T ensures b != 0 && Live(T, d) && BaseOf(T, d) == b {
      assert DerivedKey(b, d) in S;
      assert Core(S, d, DerivedKey(b, d));
    }
  }

  lemma EraseKeepsInv(S: Records, next: nat, use: map<nat, Use>, c: nat, dels: set<Key>)
    requires Inv(S, next, use) && Live(S, c) && ErasesExactly(S, use, c, {}, dels)
    ensures Inv(S - dels, next, use)
  {
    var T := S - dels;
    EraseCodebases(S, next, use, c, dels);
    forall y | Live(T, y) ensures IndexesOk(T, use, y) {
      assert IndexesOk(S, use, y);
    }
    forall d, p ensures EntryOk(T, use, d, p) {
      assert EntryOk(S, use, d, p);
      if OwnKey(d, p) in T || EditKey(d, p) in T || ErasedKey(d, p) in T {
        assert Live(S, d) && Core(S, d, OwnKey(d, p)) && Core(S, d, EditKey(d, p)) && Core(S, d, ErasedKey(d, p));
        assert !Derives(S, d, c);
        OthersAreKept(S, next, use, c, d, OwnKey(d, p));
        if OwnKey(d, p) in S {
          OthersAreKept(S, next, use, c, d, FileKey(S[OwnKey(d, p)].id));
        }
        if EditKey(d, p) in S {
          OthersAreKept(S, next, use, c, d, FileKey(S[EditKey(d, p)].id));
        }
      }
    }
  }

  // ----- one codebase, then a subtree --------------------------------------------------------

  // The deletions of erase_codebase for x alone.
  ghost predicate ErasesOne(S: Records, use: map<nat, Use>, x: nat, dels0: set<Key>, dels: set<Key>)
    requires Live(S, x)
  {
    && dels0 <= dels
    && (forall k :: k in dels ==> k in dels0 || ErasedWith(S, use, x, k))
    && (forall k :: Goes(S, x, k) ==> k in dels)
    && (forall p :: TreeKey(p) in dels <==> TreeKey(p) in dels0 || TreeErased(S, x, p))
  }

  // The tree record of an own file of x.
  predicate FileErased(S: Records, x: nat, p: string)
    requires Live(S, x)
  {
    PathOf(S, x) <= p && OwnKey(x, p[|PathOf(S, x)|..]) in S
  }

  // The deletions for one file, edit or erasure.
  function FileDeletions(S: Records, path: string, k: Key): set<Key>
    requires k in S && S[k].Id?
  {
    (if k.OwnKey? then {TreeKey(path + k.path)} else {}) + {FileKey(S[k].id), k}
  }

  // The files, edits and erasures of x have been dealt with, but for `todo`.
  ghost predicate FilesErased(S: Records, use: map<nat, Use>, x: nat, todo: set<Key>, dels0: set<Key>, dels: set<Key>)
    requires Live(S, x)
  {
    && dels0 <= dels
    && (forall k :: k in dels ==> k in dels0 || ErasedWith(S, use, x, k))
    && (forall k :: k in S && IsFileOf(x, k) && k !in todo ==>
         k in dels && (S[k].Id? ==> FileKey(S[k].id) in dels))
    && (forall p :: TreeKey(p) in dels <==>
         TreeKey(p) in dels0 || (FileErased(S, x, p) && OwnKey(x, p[|PathOf(S, x)|..]) !in todo))
  }

  lemma NoFilesErased(S: Records, use: map<nat, Use>, x: nat, todo: set<Key>, dels: set<Key>)
    requires Live(S, x) && forall k :: k in S && IsFileOf(x, k) ==> k in todo
    ensures FilesErased(S, use, x, todo, dels, dels)
  {
  }

  lemma DeletionsAreErased(S: Records, use: map<nat, Use>, x: nat, k: Key)
    requires Typed(S) && FilesOk(S, use) && Live(S, x) && k in S && IsFileOf(x, k)
    ensures forall d :: d in FileDeletions(S, PathOf(S, x), k) ==> ErasedWith(S, use, x, d)
  {
    assert EntryOk(S, use, x, k.path);
    if k.OwnKey? {
      TreePathFacts(PathOf(S, x), k.path);
    }
  }

  lemma OneMoreErased(S: Records, use: map<nat, Use>, x: nat, todo: set<Key>, k: Key, dels0: set<Key>, dels: set<Key>,
                      dels': set<Key>)
    requires Typed(S) && FilesOk(S, use) && Live(S, x) && k in todo && k in S && IsFileOf(x, k)
    requires FilesErased(S, use, x, todo, dels0, dels)
    requires dels' == dels + FileDeletions(S, PathOf(S, x), k)
    ensures FilesErased(S, use, x, todo - {k}, dels0, dels')
  {
    DeletionsAreErased(S, use, x, k);
    var path := PathOf(S, x);
    forall p ensures TreeKey(p) in dels' <==>
      TreeKey(p) in dels0 || (FileErased(S, x, p) && OwnKey(x, p[|path|..]) !in todo - {k})
    {
      OneMoreErasedAt(S, x, path, k, p);
    }
  }

  lemma OneMoreErasedAt(S: Records, x: nat, path: string, k: Key, p: string)
    requires Live(S, x) && path == PathOf(S, x) && k in S && S[k].Id? && IsFileOf(x, k)
    ensures TreeKey(p) in FileDeletions(S, path, k) <==> FileErased(S, x, p) && OwnKey(x, p[|path|..]) == k
  {
    if path <= p {
      assert p == path + p[|path|..];
    }
    if k.OwnKey? {
      assert (path + k.path)[|path|..] == k.path;
    }
  }

  // The records of x other than its files: links, manifest, path and its own record.
  function RecordKeys(S: Records, x: nat): set<Key>
    requires Live(S, x)
  {
    var m := TreeKey(PathOf(S, x) + "/");
    (set k | k in S && k.DerivedKey? && k.base == x)
    + (if m in S && S[m].TreeRec? then {m, FileKey(S[m].id)} else {})
    + (if BaseOf(S, x) != 0 then {DerivedKey(BaseOf(S, x), x)} else {})
    + {PathKey(PathOf(S, x)), InfoKey(x)}
  }

  lemma FilesThenRecords(S: Records, next: nat, use: map<nat, Use>, x: nat, dels0: set<Key>, dels1: set<Key>)
    requires Inv(S, next, use) && Live(S, x) && dels0 <= dels1
    requires FilesErased(S, use, x, {}, dels0, dels1)
    ensures ErasesOne(S, use, x, dels0, dels1 + RecordKeys(S, x))
  {
    IndexPathFacts(PathOf(S, x));
    assert IndexesOk(S, use, x);
    forall k | k in RecordKeys(S, x) ensures ErasedWith(S, use, x, k) {
    }
    forall k | Goes(S, x, k) ensures k in dels1 + RecordKeys(S, x) {
      if k in S && Core(S, x, k) && k.DerivedKey? && k.cb == x {
        assert BaseOf(S, x) == k.base != 0;
      }
    }
  }

  // The deletions of erase for everything in H and derived from it.
  ghost predicate ErasesAll(S: Records, use: map<nat, Use>, H: set<nat>, dels0: set<Key>, dels: set<Key>)
    requires Chained(S)
  {
    && dels0 <= dels
    && (forall k :: k in dels ==> k in dels0 || exists h :: h in H && ErasedBelow(S, use, h, k))
    && (forall h, x, k :: h in H && Live(S, x) && Derives(S, x, h) && Goes(S, x, k) ==> k in dels)
    && (forall p :: TreeKey(p) in dels <==> TreeKey(p) in dels0 || exists h :: h in H && TreeErasedBelow(S, h, p))
  }

  lemma EraseOneMore(S: Records, use: map<nat, Use>, H: set<nat>, h: nat, dels0: set<Key>, dels1: set<Key>,
                     dels2: set<Key>)
    requires Chained(S) && ErasesAll(S, use, H, dels0, dels1) && ErasesExactly(S, use, h, dels1, dels2)
    ensures ErasesAll(S, use, H + {h}, dels0, dels2)
  {
    forall p ensures TreeKey(p) in dels2 <==>
                       TreeKey(p) in dels0 || exists g :: g in H + {h} && TreeErasedBelow(S, g, p) {
      assert h in H + {h};
      if g :| g in H && TreeErasedBelow(S, g, p) {
        assert g in H + {h};
      }
    }
    forall k | k in dels2 && k !in dels0 ensures exists g :: g in H + {h} && ErasedBelow(S, use, g, k) {
      if k in dels1 {
        var g :| g in H && ErasedBelow(S, use, g, k);
        assert g in H + {h};
      } else {
        assert h in H + {h};
      }
    }
  }

  // What goes with c or what derives from it goes with c or with what derives from a child.
  lemma SubtreeErases(S: Records, next: nat, use: map<nat, Use>, c: nat, p: string)
    requires Inv(S, next, use) && Live(S, c)
    ensures TreeErasedBelow(S, c, p) <==>
      TreeErased(S, c, p) || exists h :: h in CodebaseCommit.Children(S, c) && TreeErasedBelow(S, h, p)
  {
    assert CodebaseOk(S, next, c);
    if TreeErased(S, c, p) {
      assert Derives(S, c, c);
    }
    if h :| h in CodebaseCommit.Children(S, c) && TreeErasedBelow(S, h, p) {
      var x :| Live(S, x) && Derives(S, x, h) && TreeErased(S, x, p);
      CodebaseCommit.ChildrenFacts(S, next, c, h);
      assert BaseOk(S, h) && Derives(S, h, c);
      DerivesTrans(S, x, h, c);
    }
    if TreeErasedBelow(S, c, p) && !TreeErased(S, c, p) {
      var x :| Live(S, x) && Derives(S, x, c) && TreeErased(S, x, p);
      var h := ChildToward(S, x, c);
      CodebaseCommit.ChildrenFacts(S, next, c, h);
      assert h in CodebaseCommit.Children(S, c) && TreeErasedBelow(S, h, p);
    }
  }

  lemma EraseSubtree(S: Records, next: nat, use: map<nat, Use>, c: nat, dels0: set<Key>, dels1: set<Key>,
                     dels2: set<Key>)
    requires Inv(S, next, use) && Live(S, c)
    requires ErasesAll(S, use, CodebaseCommit.Children(S, c), dels0, dels1) && ErasesOne(S, use, c, dels1, dels2)
    ensures ErasesExactly(S, use, c, dels0, dels2)
  {
    assert CodebaseOk(S, next, c);
    forall p ensures TreeKey(p) in dels2 <==> TreeKey(p) in dels0 || TreeErasedBelow(S, c, p) {
      SubtreeErases(S, next, use, c, p);
    }
    forall k | k in dels2 && k !in dels0 ensures ErasedBelow(S, use, c, k) {
      if k in dels1 {
        var h :| h in CodebaseCommit.Children(S, c) && ErasedBelow(S, use, h, k);
        var x :| Live(S, x) && Derives(S, x, h) && ErasedWith(S, use, x, k);
        CodebaseCommit.ChildrenFacts(S, next, c, h);
        assert BaseOk(S, h) && Derives(S, h, c);
        DerivesTrans(S, x, h, c);
      } else {
        assert Derives(S, c, c);
      }
    }
    forall x, k | Live(S, x) && Derives(S, x, c) && Goes(S, x, k) ensures k in dels2 {
      if x != c {
        var h := ChildToward(S, x, c);
        CodebaseCommit.ChildrenFacts(S, next, c, h);
      }
    }
  }

  // ----- what erasing leaves behind --------------------------------------------------------

  // Under the path of an erased codebase, exactly the records of its own files and its
  // manifest go. Its etags stay, and so do the records of the files it inherited.
  lemma ErasedTree(S: Records, next: nat, use: map<nat, Use>, c: nat, dels: set<Key>, x: nat, p: string)
    requires Inv(S, next, use) && ErasesExactly(S, use, c, {}, dels)
    requires Live(S, x) && Derives(S, x, c) && Under(PathOf(S, x), p)
    ensures TreeKey(p) in S - dels <==>
      TreeKey(p) in S && p != PathOf(S, x) + "/" && OwnKey(x, p[|PathOf(S, x)|..]) !in S
  {
    if TreeErasedBelow(S, c, p) {
      var y :| Live(S, y) && Derives(S, y, c) && TreeErased(S, y, p);
      ErasedIsUnder(S, use, y, p);
      if x != y {
        RegionsDisjoint(S, next, use, use, x, y, TreeKey(p));
      }
    }
  }

  lemma ErasedIsUnder(S: Records, use: map<nat, Use>, x: nat, p: string)
    requires FilesOk(S, use) && Live(S, x) && TreeErased(S, x, p)
    ensures Under(PathOf(S, x), p)
  {
    var path := PathOf(S, x);
    IndexPathFacts(path);
    if path <= p && OwnKey(x, p[|path|..]) in S {
      assert EntryOk(S, use, x, p[|path|..]);
      TreePathFacts(path, p[|path|..]);
      assert p == path + p[|path|..];
    }
  }

  // ----- what erasing leaves alone ---------------------------------------------------------

  lemma OtherKeysStay(S: Records, next: nat, use: map<nat, Use>, c: nat, y: nat, k: Key)
    requires Inv(S, next, use) && Live(S, y) && !Derives(S, y, c)
    requires match k
      case TreeKey(p) => Under(PathOf(S, y), p)
      case FileKey(i) => i in use && (use[i] == IndexOf(PathOf(S, y) + "/") || use[i] == IndexOf(PathOf(S, y) + ETAGS))
      case _ => false
    ensures !ErasedBelow(S, use, c, k)
  {
    forall x | Live(S, x) && Derives(S, x, c) ensures !ErasedWith(S, use, x, k) {
      assert ErasedWith(S, use, x, k) ==> Region(S, use, x, k) && Region(S, use, y, k);
      RegionsDisjoint(S, next, use, use, x, y, k);
    }
  }

  lemma {:induction false} OtherFilesStay(S: Records, next: nat, use: map<nat, Use>, c: nat, dels: set<Key>, y: nat)
    requires Inv(S, next, use) && Live(S, c) && ErasesExactly(S, use, c, {}, dels) && Chained(S - dels)
    requires y == 0 || (Live(S, y) && !Derives(S, y, c) && Live(S - dels, y))
    ensures Resolve(S - dels, y) == Resolve(S, y)
    ensures forall p :: p in Resolve(S, y) ==> SameAt(S, S - dels, FileKey(Resolve(S, y)[p]))
  {
    var T := S - dels;
    if y != 0 {
      assert BaseOk(S, y);
      EraseCodebases(S, next, use, c, dels);
      OtherFilesStay(S, next, use, c, dels, BaseOf(S, y));
      OwnDomain(S, y);
      OwnDomain(T, y);
      forall p ensures SameAt(S, T, OwnKey(y, p)) {
        OthersAreKept(S, next, use, c, y, OwnKey(y, p));
      }
      assert Own(T, y) == Own(S, y) by {
        assert forall p :: SameAt(S, T, OwnKey(y, p));
      }
      forall p | p in Own(S, y) ensures SameAt(S, T, FileKey(Own(S, y)[p])) {
        assert EntryOk(S, use, y, p);
        OthersAreKept(S, next, use, c, y, FileKey(Own(S, y)[p]));
      }
    }
  }

  // One path of y: its file, its edit and its erasure, and the contents, are the same.
  ghost predicate FileKept(S: Records, T: Records, y: nat, p: string) {
    && SameAt(S, T, OwnKey(y, p)) && SameAt(S, T, EditKey(y, p)) && SameAt(S, T, ErasedKey(y, p))
    && (OwnKey(y, p) in S && S[OwnKey(y, p)].Id? ==> SameAt(S, T, FileKey(S[OwnKey(y, p)].id)))
    && (EditKey(y, p) in S && S[EditKey(y, p)].Id? ==> SameAt(S, T, FileKey(S[EditKey(y, p)].id)))
  }

  lemma OtherFileKept(S: Records, next: nat, use: map<nat, Use>, c: nat, dels: set<Key>, y: nat, p: string)
    requires Inv(S, next, use) && Live(S, c) && ErasesExactly(S, use, c, {}, dels) && Live(S, y) && !Derives(S, y, c)
    ensures FileKept(S, S - dels, y, p)
  {
    assert EntryOk(S, use, y, p);
    OthersAreKept(S, next, use, c, y, OwnKey(y, p));
    OthersAreKept(S, next, use, c, y, EditKey(y, p));
    OthersAreKept(S, next, use, c, y, ErasedKey(y, p));
    if OwnKey(y, p) in S {
      OthersAreKept(S, next, use, c, y, FileKey(S[OwnKey(y, p)].id));
    }
    if EditKey(y, p) in S {
      OthersAreKept(S, next, use, c, y, FileKey(S[EditKey(y, p)].id));
    }
  }

  lemma OwnKept(S: Records, T: Records, y: nat)
    requires Typed(S) && Typed(T) && forall p :: SameAt(S, T, OwnKey(y, p))
    ensures Own(T, y) == Own(S, y)
  {
    OwnDomain(S, y);
    OwnDomain(T, y);
    assert Own(T, y).Keys == Own(S, y).Keys by {
      assert forall p :: SameAt(S, T, OwnKey(y, p));
    }
  }

  lemma PendingKept(S: Records, T: Records, y: nat)
    requires Typed(S) && Typed(T)
    requires forall p :: SameAt(S, T, EditKey(y, p)) && SameAt(S, T, ErasedKey(y, p))
    ensures Edits(T, y) == Edits(S, y) && Erasures(T, y).Keys == Erasures(S, y).Keys
  {
    PendingDomain(S, y);
    PendingDomain(T, y);
    assert Edits(T, y).Keys == Edits(S, y).Keys && Erasures(T, y).Keys == Erasures(S, y).Keys by {
      assert forall p :: SameAt(S, T, EditKey(y, p)) && SameAt(S, T, ErasedKey(y, p));
    }
  }

  lemma OwnLookupStays(S: Records, next: nat, use: map<nat, Use>, c: nat, dels: set<Key>, y: nat)
    requires Inv(S, next, use) && Live(S, c) && ErasesExactly(S, use, c, {}, dels) && Live(S, y) && !Derives(S, y, c)
    requires Typed(S - dels)
    ensures forall p {:trigger FileKept(S, S - dels, y, p)} :: FileKept(S, S - dels, y, p)
    ensures Own(S - dels, y) == Own(S, y) && Edits(S - dels, y) == Edits(S, y)
    ensures Erasures(S - dels, y).Keys == Erasures(S, y).Keys
  {
    var T := S - dels;
    forall p ensures FileKept(S, T, y, p) {
      OtherFileKept(S, next, use, c, dels, y, p);
    }
    assert forall p :: FileKept(S, T, y, p);
    OwnKept(S, T, y);
    PendingKept(S, T, y);
  }

  // Whatever does not derive from c shows what it showed.
  lemma OtherLookupStays(S: Records, next: nat, use: map<nat, Use>, c: nat, dels: set<Key>, y: nat)
    requires Inv(S, next, use) && Live(S, c) && ErasesExactly(S, use, c, {}, dels) && Live(S, y) && !Derives(S, y, c)
    ensures Chained(S - dels) && Live(S - dels, y) && Lookup(S - dels, y) == Lookup(S, y)
    ensures forall p {:trigger FileKept(S, S - dels, y, p)} :: FileKept(S, S - dels, y, p)
  {
    var T := S - dels;
    EraseKeepsInv(S, next, use, c, dels);
    EraseCodebases(S, next, use, c, dels);
    assert BaseOk(S, y) && BaseOk(T, y);
    OwnLookupStays(S, next, use, c, dels, y);
    OtherFilesStay(S, next, use, c, dels, BaseOf(S, y));
  }

  // Erasing c leaves an exact tree of anything not derived from c exact.
  lemma OtherTreesStayExact(S: Records, next: nat, use: map<nat, Use>, c: nat, dels: set<Key>, y: nat)
    requires Inv(S, next, use) && Live(S, c) && ErasesExactly(S, use, c, {}, dels)
    requires Live(S, y) && !Derives(S, y, c) && TreeExact(S, y)
    ensures Chained(S - dels) && Live(S - dels, y) && TreeExact(S - dels, y)
  {
    var T := S - dels;
    EraseCodebases(S, next, use, c, dels);
    OtherFilesStay(S, next, use, c, dels, y);
    var path := PathOf(S, y);
    IndexPathFacts(path);
    forall p | Under(path, p) ensures SameAt(S, T, TreeKey(p)) {
      OtherKeysStay(S, next, use, c, y, TreeKey(p));
    }
    assert IndexesOk(S, use, y);
    OtherKeysStay(S, next, use, c, y, FileKey(S[TreeKey(path + "/")].id));
    OtherKeysStay(S, next, use, c, y, FileKey(S[TreeKey(path + ETAGS)].id));
    CodebaseCommit.ResolvedPathsOk(S, next, use, y);
    TreeExactFrame(S, T, y);
  }
}
