// The records of the codebase repository (src/codebase-store.cpp) and what they mean:
// codebases inherit the files of their base, carry pending edits and erasures, and each
// has a materialised file tree under its path.
module Codebase {

  // ----- keys and records ------------------------------------------------------------

  // UUIDs are numbers from a supply; 0 stands for the empty id.
  datatype Key =
    | FileKey(id: nat)                     // files/[id]
    | TreeKey(path: string)                // files/tree/[path]
    | InfoKey(cb: nat)                     // codebases/[id]
    | PathKey(path: string)                // codebases/tree/[path]
    | OwnKey(cb: nat, path: string)        // codebases/[id]/files/[path]
    | EditKey(cb: nat, path: string)       // codebases/[id]/edit/[path]
    | ErasedKey(cb: nat, path: string)     // codebases/[id]/erased/[path]
    | DerivedKey(base: nat, cb: nat)       // codebases/[id]/derived/[derived id]

  datatype Text =
    | Blob(bytes: string)
    | Manifest(main: string, paths: set<string>)
    | Etags(lines: map<string, string>)

  datatype Value =
    | Content(text: Text)
    | TreeRec(id: nat, version: string)
    | Info(version: string, path: string, base: nat, main: string)
    | Id(id: nat)
    | Link(version: string)

  type Records = map<Key, Value>

  // A codebase record with another version.
  function WithVersion(v: Value, version: string): Value
    requires v.Info?
  {
    Info(version, v.path, v.base, v.main)
  }

  // ----- reading ---------------------------------------------------------------------

  predicate Live(S: Records, c: nat) {
    InfoKey(c) in S && S[InfoKey(c)].Info?
  }

  function BaseOf(S: Records, c: nat): nat
    requires Live(S, c)
  {
    S[InfoKey(c)].base
  }

  function VersionOf(S: Records, c: nat): string
    requires Live(S, c)
  {
    S[InfoKey(c)].version
  }

  function PathOf(S: Records, c: nat): string
    requires Live(S, c)
  {
    S[InfoKey(c)].path
  }

  predicate SameAt(S: Records, T: Records, k: Key) {
    (k in S <==> k in T) && (k in S ==> S[k] == T[k])
  }

  function OwnKeys(S: Records, c: nat): set<Key> {
    set k | k in S && k.OwnKey? && k.cb == c
  }

  // The committed files of a codebase itself, its pending edits, its pending erasures.
  function Own(S: Records, c: nat): map<string, nat> {
    map k | k in S && k.OwnKey? && k.cb == c && S[k].Id? :: k.path := S[k].id
  }

  function Edits(S: Records, c: nat): map<string, nat> {
    map k | k in S && k.EditKey? && k.cb == c && S[k].Id? :: k.path := S[k].id
  }

  function Erasures(S: Records, c: nat): map<string, nat> {
    map k | k in S && k.ErasedKey? && k.cb == c && S[k].Id? :: k.path := S[k].id
  }

  // Bases are older than what derives from them.
  ghost predicate BaseOk(S: Records, c: nat)
    requires Live(S, c)
  {
    BaseOf(S, c) < c && (BaseOf(S, c) != 0 ==> Live(S, BaseOf(S, c)))
  }

  ghost predicate Chained(S: Records) {
    forall c {:trigger BaseOk(S, c)} :: Live(S, c) ==> BaseOk(S, c)
  }

  // The committed files of a codebase over those of its base chain.
  ghost function Resolve(S: Records, c: nat): map<string, nat>
    requires Chained(S) && (c == 0 || Live(S, c))
  {
    if c == 0 then map[]
    else
      assert BaseOk(S, c);
      Resolve(S, BaseOf(S, c)) + Own(S, c)
  }

  // What a codebase inherits.
  ghost function Inherited(S: Records, c: nat): map<string, nat>
    requires Chained(S) && Live(S, c)
  {
    assert BaseOk(S, c);
    Resolve(S, BaseOf(S, c))
  }

  // What get_file finds: the codebase with its pending changes, over its base chain.
  ghost function Lookup(S: Records, c: nat): map<string, nat>
    requires Chained(S) && Live(S, c)
  {
    Inherited(S, c) + ((Own(S, c) + Edits(S, c)) - Erasures(S, c).Keys)
  }

  // x is c or derives from c, directly or not.
  ghost predicate Derives(S: Records, x: nat, c: nat)
    requires Chained(S) && Live(S, x)
  {
    assert BaseOk(S, x);
    x == c || (BaseOf(S, x) != 0 && Derives(S, BaseOf(S, x), c))
  }

  // ----- paths -----------------------------------------------------------------------

  predicate EndsWith(s: string, suffix: string) {
    |suffix| <= |s| && s[|s| - |suffix|..] == suffix
  }

  const ETAGS := "/_etags"

  // Neither the path of the manifest nor that of the etags.
  predicate IsPlainPath(p: string) {
    p != "" && p[0] == '/' && p != "/" && p != ETAGS
  }

  // All callers of set_file pass paths that start with a slash.
  predicate FilePathOk(p: string) {
    p != "" && p[0] == '/'
  }

  ghost predicate AllPlain(files: map<string, nat>) {
    forall p :: p in files ==> IsPlainPath(p)
  }

  predicate Under(path: string, p: string) {
    path + "/" <= p
  }

  lemma TreePathFacts(path: string, p: string)
    requires FilePathOk(p)
    ensures Under(path, path + p) && (path + p)[|path|..] == p
    ensures IsPlainPath(p) ==> path + p != path + "/" && path + p != path + ETAGS
  {
    var t := path + p;
    assert t[|path|] == '/' && t[|path|..] == p;
    assert (path + "/")[|path|..] == "/" && (path + ETAGS)[|path|..] == ETAGS;
  }

  lemma IndexPathFacts(path: string)
    ensures Under(path, path + "/") && Under(path, path + ETAGS)
    ensures path + "/" != path + ETAGS
  {
    assert (path + ETAGS)[|path|..] == ETAGS;
    assert (path + "/")[|path|..] == "/";
  }

  // ----- version numbers -----------------------------------------------------------------

  function Digits(n: nat): string {
    if n < 10 then [('0' as int + n) as char] else Digits(n / 10) + [('0' as int + n % 10) as char]
  }

  function ToString(n: int): string {
    if n < 0 then "-" + Digits(-n) else Digits(n)
  }

  predicate IsDigit(c: char) {
    '0' <= c <= '9'
  }

  // atoi: blanks, an optional sign, and as many digits as there are.
  function DigitsPrefix(s: string): string {
    if s != "" && IsDigit(s[0]) then [s[0]] + DigitsPrefix(s[1..]) else ""
  }

  function NumberOf(s: string): nat
    requires forall c <- s :: IsDigit(c)
  {
    if s == "" then 0
    else
      assert IsDigit(s[|s| - 1]);
      10 * NumberOf(s[..|s| - 1]) + (s[|s| - 1] as int - '0' as int)
  }

  lemma {:induction false} DigitsPrefixFacts(s: string)
    ensures forall c <- DigitsPrefix(s) :: IsDigit(c)
    ensures (forall c <- s :: IsDigit(c)) ==> DigitsPrefix(s) == s
  {
    if s != "" {
      DigitsPrefixFacts(s[1..]);
    }
  }

  predicate IsBlank(c: char) {
    c == ' ' || '\t' <= c <= '\r'
  }

  function Atoi(s: string): int {
    DigitsPrefixFacts(s);
    if s == "" then 0
    else if IsBlank(s[0]) then Atoi(s[1..])
    else if s[0] == '-' then
      DigitsPrefixFacts(s[1..]);
      0 - NumberOf(DigitsPrefix(s[1..])) as int
    else if s[0] == '+' then
      DigitsPrefixFacts(s[1..]);
      NumberOf(DigitsPrefix(s[1..]))
    else NumberOf(DigitsPrefix(s))
  }

  lemma {:induction false} DigitsSpell(n: nat)
    ensures Digits(n) != "" && forall c <- Digits(n) :: IsDigit(c)
    ensures NumberOf(Digits(n)) == n
  {
    if n < 10 {
      assert Digits(n)[..0] == "";
    } else {
      DigitsSpell(n / 10);
      assert Digits(n)[..|Digits(n)| - 1] == Digits(n / 10);
    }
  }

  lemma AtoiToString(n: int)
    ensures Atoi(ToString(n)) == n
  {
    var d := Digits(if n < 0 then -n else n);
    DigitsSpell(if n < 0 then -n else n);
    DigitsPrefixFacts(d);
    if n < 0 {
      assert ToString(n)[1..] == d;
    }
  }

  // The version of a derived codebase after its base was committed.
  function Bump(version: string): string {
    ToString(Atoi(version) + 1)
  }

  lemma BumpChanges(version: string)
    ensures Bump(version) != version
  {
    AtoiToString(Atoi(version) + 1);
  }

  // ----- the invariant of the repository ---------------------------------------------------

  // What each file id was ever created for.
  datatype Use = FileOf(cb: nat, path: string) | IndexOf(path: string)

  ghost predicate Typed(S: Records) {
    forall k :: k in S ==>
      match k
      case FileKey(_) => S[k].Content?
      case TreeKey(_) => S[k].TreeRec?
      case InfoKey(_) => S[k].Info?
      case DerivedKey(_, _) => S[k].Link?
      case _ => S[k].Id?
  }

  ghost predicate CodebaseOk(S: Records, next: nat, c: nat)
    requires Live(S, c)
  {
    var b := BaseOf(S, c);
    && BaseOk(S, c) && 0 < c < next
    && PathKey(PathOf(S, c)) in S && S[PathKey(PathOf(S, c))] == Id(c)
    && (b != 0 ==> DerivedKey(b, c) in S && S[DerivedKey(b, c)] == Link(VersionOf(S, b)))
  }

  // The codebases: who is based on whom, at which version, under which path.
  ghost predicate CodebasesOk(S: Records, next: nat) {
    && Chained(S)
    && (forall c {:trigger CodebaseOk(S, next, c)} :: Live(S, c) ==> CodebaseOk(S, next, c))
    && (forall c, d :: Live(S, c) && Live(S, d) ==> !Under(PathOf(S, c), PathOf(S, d)))
    && (forall b, d :: DerivedKey(b, d) in S ==> b != 0 && Live(S, d) && BaseOf(S, d) == b)
  }

  ghost predicate FileOk(S: Records, use: map<nat, Use>, c: nat, path: string, v: Value) {
    && Live(S, c) && FilePathOk(path)
    && v.Id? && v.id in use && use[v.id] == FileOf(c, path) && FileKey(v.id) in S
  }

  // One path of one codebase: its file, and its pending edit or erasure.
  ghost predicate EntryOk(S: Records, use: map<nat, Use>, c: nat, p: string) {
    && (OwnKey(c, p) in S ==> FileOk(S, use, c, p, S[OwnKey(c, p)]))
    && (EditKey(c, p) in S ==>
         && FileOk(S, use, c, p, S[EditKey(c, p)])
         && ErasedKey(c, p) !in S
         && (OwnKey(c, p) in S ==> S[OwnKey(c, p)] != S[EditKey(c, p)]))
    && (ErasedKey(c, p) in S ==> OwnKey(c, p) in S && S[OwnKey(c, p)] == S[ErasedKey(c, p)])
  }

  ghost predicate FilesOk(S: Records, use: map<nat, Use>) {
    forall c, p :: EntryOk(S, use, c, p)
  }

  // What is recorded at the path of a manifest or of etags, if anything, has an id of its own.
  ghost predicate IndexOk(S: Records, use: map<nat, Use>, p: string) {
    TreeKey(p) in S ==>
      S[TreeKey(p)].TreeRec? && S[TreeKey(p)].id in use && use[S[TreeKey(p)].id] == IndexOf(p)
  }

  ghost predicate IndexesOk(S: Records, use: map<nat, Use>, x: nat)
    requires Live(S, x)
  {
    IndexOk(S, use, PathOf(S, x) + "/") && IndexOk(S, use, PathOf(S, x) + ETAGS)
  }

  ghost predicate TreeIdsOk(S: Records, use: map<nat, Use>) {
    forall p :: TreeKey(p) in S ==> S[TreeKey(p)].TreeRec? && S[TreeKey(p)].id in use
  }

  // So it is for every codebase there is. Records under other paths may be left from codebases
  // that were erased.
  ghost predicate TreesOk(S: Records, use: map<nat, Use>) {
    TreeIdsOk(S, use) && forall x {:trigger IndexesOk(S, use, x)} :: Live(S, x) ==> IndexesOk(S, use, x)
  }

  ghost predicate Inv(S: Records, next: nat, use: map<nat, Use>) {
    && next > 0 && (forall i :: i in use ==> 0 < i < next)
    && Typed(S) && CodebasesOk(S, next) && FilesOk(S, use) && TreesOk(S, use)
  }

  lemma OwnDomain(S: Records, c: nat)
    requires Typed(S)
    ensures forall p :: p in Own(S, c) <==> OwnKey(c, p) in S
    ensures forall p :: p in Own(S, c) ==> S[OwnKey(c, p)] == Id(Own(S, c)[p])
  {
  }

  lemma PendingDomain(S: Records, c: nat)
    requires Typed(S)
    ensures forall p :: p in Edits(S, c) <==> EditKey(c, p) in S
    ensures forall p :: p in Edits(S, c) ==> S[EditKey(c, p)] == Id(Edits(S, c)[p])
    ensures forall p :: p in Erasures(S, c) <==> ErasedKey(c, p) in S
    ensures forall p :: p in Erasures(S, c) ==> S[ErasedKey(c, p)] == Id(Erasures(S, c)[p])
  {
  }

  // What a listing says about one path, 0 for nothing.
  function At(files: map<string, nat>, path: string): nat {
    if path in files then files[path] else 0
  }

  lemma ResolveAt(S: Records, c: nat, path: string)
    requires Typed(S) && Chained(S) && Live(S, c)
    ensures At(Resolve(S, c), path) ==
      if OwnKey(c, path) in S then S[OwnKey(c, path)].id else At(Inherited(S, c), path)
  {
    assert BaseOk(S, c);
    OwnDomain(S, c);
  }

  lemma LookupAt(S: Records, c: nat, path: string)
    requires Typed(S) && Chained(S) && Live(S, c)
    ensures At(Lookup(S, c), path) ==
      if ErasedKey(c, path) in S then At(Inherited(S, c), path)
      else if EditKey(c, path) in S then S[EditKey(c, path)].id
      else if OwnKey(c, path) in S then S[OwnKey(c, path)].id
      else At(Inherited(S, c), path)
  {
    assert BaseOk(S, c);
    OwnDomain(S, c);
    PendingDomain(S, c);
  }

  lemma MapAssoc<K, V>(a: map<K, V>, b: map<K, V>, c: map<K, V>)
    ensures (a + b) + c == a + (b + c)
  {
  }

  // ----- the tree of a codebase ------------------------------------------------------------

  ghost predicate KeysExact(S: Records, path: string, files: map<string, nat>) {
    forall p :: Under(path, p) ==>
      (TreeKey(p) in S <==> p == path + "/" || p == path + ETAGS || p[|path|..] in files)
  }

  ghost predicate FilesExact(S: Records, path: string, files: map<string, nat>, version: string) {
    forall p :: p in files ==>
      TreeKey(path + p) in S && S[TreeKey(path + p)] == TreeRec(files[p], version) && FileKey(files[p]) in S
  }

  ghost predicate ManifestExact(S: Records, path: string, files: map<string, nat>, version: string, main: string) {
    && TreeKey(path + "/") in S && S[TreeKey(path + "/")].TreeRec? && S[TreeKey(path + "/")].version == version
    && var id := S[TreeKey(path + "/")].id;
       FileKey(id) in S && S[FileKey(id)] == Content(Manifest(main, files.Keys - {main}))
  }

  // The etag of a file is the version of the codebase, if that has one.
  ghost predicate EtagsExact(S: Records, path: string, files: map<string, nat>, version: string) {
    && TreeKey(path + ETAGS) in S && S[TreeKey(path + ETAGS)].TreeRec?
    && var id := S[TreeKey(path + ETAGS)].id;
       FileKey(id) in S && S[FileKey(id)].Content? && S[FileKey(id)].text.Etags?
         && S[FileKey(id)].text.lines.Keys == files.Keys
         && (version != "" ==> forall p :: p in files ==> S[FileKey(id)].text.lines[p] == version)
  }

  // The keys under the path of x are the manifest, the etags and one record for each file,
  // each with the right id and version, and what the ids stand for is stored.
  ghost predicate TreeExact(S: Records, x: nat)
    requires Chained(S) && Live(S, x)
  {
    var path, files := PathOf(S, x), Resolve(S, x);
    && KeysExact(S, path, files) && FilesExact(S, path, files, VersionOf(S, x))
    && ManifestExact(S, path, files, VersionOf(S, x), S[InfoKey(x)].main)
    && EtagsExact(S, path, files, VersionOf(S, x))
  }

  // An exact tree stays exact while its keys, its index and its files stay.
  lemma TreeExactFrame(S: Records, T: Records, x: nat)
    requires Chained(S) && Live(S, x) && Chained(T) && Live(T, x) && TreeExact(S, x)
    requires T[InfoKey(x)] == S[InfoKey(x)] && Resolve(T, x) == Resolve(S, x)
    requires forall p :: p in Resolve(S, x) ==> FilePathOk(p) && FileKey(Resolve(S, x)[p]) in T
    requires forall p :: Under(PathOf(S, x), p) ==> SameAt(S, T, TreeKey(p))
    requires SameAt(S, T, FileKey(S[TreeKey(PathOf(S, x) + "/")].id))
    requires SameAt(S, T, FileKey(S[TreeKey(PathOf(S, x) + ETAGS)].id))
    ensures TreeExact(T, x)
  {
    var path := PathOf(S, x);
    IndexPathFacts(path);
    KeysFrame(S, T, path, Resolve(S, x));
    RecordsFrame(S, T, path, Resolve(S, x), VersionOf(S, x));
  }

  lemma KeysFrame(S: Records, T: Records, path: string, files: map<string, nat>)
    requires KeysExact(S, path, files) && forall p :: Under(path, p) ==> SameAt(S, T, TreeKey(p))
    ensures KeysExact(T, path, files)
  {
    forall p | Under(path, p)
      ensures TreeKey(p) in T <==> p == path + "/" || p == path + ETAGS || p[|path|..] in files
    {
      assert SameAt(S, T, TreeKey(p));
    }
  }

  lemma RecordsFrame(S: Records, T: Records, path: string, files: map<string, nat>, version: string)
    requires FilesExact(S, path, files, version) && forall p :: Under(path, p) ==> SameAt(S, T, TreeKey(p))
    requires forall p :: p in files ==> FilePathOk(p) && FileKey(files[p]) in T
    ensures FilesExact(T, path, files, version)
  {
    forall p | p in files ensures SameAt(S, T, TreeKey(path + p)) {
      TreePathFacts(path, p);
    }
  }

  // ----- the keys one codebase accounts for ----------------------------------------------------

  // What rebuilding the tree of x may touch, its link aside.
  ghost predicate TreeRegion(S: Records, use: map<nat, Use>, x: nat, k: Key)
    requires Live(S, x)
  {
    Region(S, use, x, k) && !k.DerivedKey?
  }

  // What upgrading x may touch.
  ghost predicate Region(S: Records, use: map<nat, Use>, x: nat, k: Key)
    requires Live(S, x)
  {
    match k
    case TreeKey(p) => Under(PathOf(S, x), p)
    case InfoKey(c) => c == x
    case DerivedKey(_, d) => d == x
    case FileKey(i) => i in use && (use[i] == IndexOf(PathOf(S, x) + "/") || use[i] == IndexOf(PathOf(S, x) + ETAGS))
    case _ => false
  }

  lemma RegionsDisjoint(S: Records, next: nat, use: map<nat, Use>, use': map<nat, Use>, x: nat, y: nat, k: Key)
    requires Inv(S, next, use) && Live(S, x) && Live(S, y) && x != y
    ensures !(Region(S, use', x, k) && Region(S, use', y, k))
  {
    var px, py := PathOf(S, x), PathOf(S, y);
    assert CodebaseOk(S, next, x) && CodebaseOk(S, next, y);
    assert px != py && !Under(px, py) && !Under(py, px);
    assert px + "/" != py + "/" by {
      assert (px + "/")[..|px|] == px && (py + "/")[..|py|] == py;
    }
    assert px + ETAGS != py + ETAGS by {
      assert (px + ETAGS)[..|px + ETAGS| - 7] == px && (py + ETAGS)[..|py + ETAGS| - 7] == py;
    }
    assert (px + "/")[|px|] != (py + ETAGS)[|py| + 6] && (py + "/")[|py|] != (px + ETAGS)[|px| + 6];
  }

  lemma LiveBound(S: Records, next: nat, use: map<nat, Use>)
    requires Inv(S, next, use)
    ensures forall x: nat :: Live(S, x) ==> x < next
  {
    forall x: nat | Live(S, x) ensures x < next {
      assert CodebaseOk(S, next, x);
    }
  }

  // No file id is the empty one.
  lemma FileIdsAreReal(S: Records, next: nat, use: map<nat, Use>, c: nat, path: string)
    requires Inv(S, next, use)
    ensures OwnKey(c, path) in S ==> S[OwnKey(c, path)].id != 0
    ensures EditKey(c, path) in S ==> S[EditKey(c, path)].id != 0
  {
    assert EntryOk(S, use, c, path);
  }

  // ----- descent -------------------------------------------------------------------------------

  lemma {:induction false} DerivesUp(S: Records, x: nat, c: nat)
    requires Chained(S) && Live(S, x) && Derives(S, x, c)
    ensures c <= x && Live(S, c)
  {
    assert BaseOk(S, x);
    if x != c {
      DerivesUp(S, BaseOf(S, x), c);
    }
  }

  lemma {:induction false} DerivesComparable(S: Records, x: nat, a: nat, b: nat)
    requires Chained(S) && Live(S, x) && Live(S, a) && Live(S, b)
    requires Derives(S, x, a) && Derives(S, x, b)
    ensures Derives(S, a, b) || Derives(S, b, a)
  {
    assert BaseOk(S, x);
    if x != a && x != b {
      DerivesComparable(S, BaseOf(S, x), a, b);
    }
  }

  // Codebases derived from two children of one base are different.
  lemma SiblingsApart(S: Records, x: nat, a: nat, b: nat)
    requires Chained(S) && Live(S, x) && Live(S, a) && Live(S, b) && a != b
    requires BaseOf(S, a) == BaseOf(S, b)
    ensures !(Derives(S, x, a) && Derives(S, x, b))
  {
    assert BaseOk(S, a) && BaseOk(S, b);
    if Derives(S, x, a) && Derives(S, x, b) {
      DerivesComparable(S, x, a, b);
      if Derives(S, a, b) {
        DerivesUp(S, BaseOf(S, a), b);
      } else {
        DerivesUp(S, BaseOf(S, b), a);
      }
    }
  }

  // The child of c through which x derives from it.
  lemma {:induction false} ChildToward(S: Records, x: nat, c: nat) returns (d: nat)
    requires Chained(S) && Live(S, x) && x != c && Derives(S, x, c)
    ensures Live(S, d) && BaseOf(S, d) == c && c != 0 && Derives(S, x, d)
  {
    assert BaseOk(S, x);
    if BaseOf(S, x) == c {
      d := x;
    } else {
      d := ChildToward(S, BaseOf(S, x), c);
    }
  }

  lemma {:induction false} DerivesTrans(S: Records, x: nat, d: nat, c: nat)
    requires Chained(S) && Live(S, x) && Live(S, d)
    requires Derives(S, x, d) && Derives(S, d, c)
    ensures Derives(S, x, c)
  {
    assert BaseOk(S, x);
    if x != d {
      DerivesTrans(S, BaseOf(S, x), d, c);
    }
  }

  // ----- pending changes ---------------------------------------------------------------------

  ghost function AfterSetFile(S: Records, c: nat, path: string, id: nat, data: string): Records {
    (S - {ErasedKey(c, path)})[FileKey(id) := Content(Blob(data))][EditKey(c, path) := Id(id)]
  }

  // The pending edit of a path, and the content it points to, are dropped.
  ghost function WithoutEdit(S: Records, c: nat, path: string): Records {
    if EditKey(c, path) in S && S[EditKey(c, path)].Id? then
      S - {EditKey(c, path), FileKey(S[EditKey(c, path)].id)}
    else
      S
  }

  ghost function AfterEraseFile(S: Records, c: nat, path: string): Records {
    var T := WithoutEdit(S, c, path);
    if OwnKey(c, path) in S then T[ErasedKey(c, path) := S[OwnKey(c, path)]] else T
  }

  ghost function AfterResetFile(S: Records, c: nat, path: string): Records {
    WithoutEdit(S, c, path) - {ErasedKey(c, path)}
  }

  // Only files, edits, erasures and contents differ.
  ghost predicate SameCodebases(S: Records, T: Records) {
    forall k: Key :: k.InfoKey? || k.PathKey? || k.DerivedKey? || k.TreeKey? ==> SameAt(S, T, k)
  }

  lemma CodebaseFrame(S: Records, T: Records, next: nat, next': nat, c: nat)
    requires Live(S, c) && CodebaseOk(S, next, c) && SameCodebases(S, T) && next <= next'
    ensures Live(T, c) && T[InfoKey(c)] == S[InfoKey(c)] && CodebaseOk(T, next', c)
  {
    assert SameAt(S, T, InfoKey(c));
    assert SameAt(S, T, PathKey(PathOf(S, c))) && SameAt(S, T, DerivedKey(BaseOf(S, c), c));
    assert SameAt(S, T, InfoKey(BaseOf(S, c)));
  }

  lemma LiveFrame(S: Records, T: Records)
    requires SameCodebases(S, T)
    ensures forall c :: Live(T, c) <==> Live(S, c)
    ensures forall c :: Live(S, c) ==> Live(T, c) && T[InfoKey(c)] == S[InfoKey(c)]
  {
    forall c ensures Live(T, c) <==> Live(S, c) ensures Live(S, c) ==> Live(T, c) && T[InfoKey(c)] == S[InfoKey(c)] {
      assert SameAt(S, T, InfoKey(c));
    }
  }

  lemma LinksFrame(S: Records, T: Records, next: nat)
    requires CodebasesOk(S, next) && SameCodebases(S, T)
    ensures forall b, d :: DerivedKey(b, d) in T ==> b != 0 && Live(T, d) && BaseOf(T, d) == b
  {
    forall b, d | DerivedKey(b, d) in T ensures b != 0 && Live(T, d) && BaseOf(T, d) == b {
      assert SameAt(S, T, DerivedKey(b, d)) && SameAt(S, T, InfoKey(d));
    }
  }

  lemma PathsFrame(S: Records, T: Records, next: nat)
    requires CodebasesOk(S, next) && SameCodebases(S, T)
    ensures forall c, d :: Live(T, c) && Live(T, d) ==> !Under(PathOf(T, c), PathOf(T, d))
  {
    LiveFrame(S, T);
    forall c, d | Live(T, c) && Live(T, d) ensures !Under(PathOf(T, c), PathOf(T, d)) {
      assert Live(S, c) && Live(S, d);
    }
  }

  lemma EachFrame(S: Records, T: Records, next: nat, next': nat)
    requires CodebasesOk(S, next) && SameCodebases(S, T) && next <= next'
    ensures forall c {:trigger Live(T, c)} :: Live(T, c) ==> CodebaseOk(T, next', c) && BaseOk(T, c)
  {
    LiveFrame(S, T);
    forall c | Live(T, c) ensures CodebaseOk(T, next', c) && BaseOk(T, c) {
      assert CodebaseOk(S, next, c);
      CodebaseFrame(S, T, next, next', c);
    }
  }

  lemma CodebasesFrame(S: Records, T: Records, next: nat, next': nat)
    requires CodebasesOk(S, next) && SameCodebases(S, T) && next <= next'
    ensures CodebasesOk(T, next')
  {
    EachFrame(S, T, next, next');
    PathsFrame(S, T, next);
    LinksFrame(S, T, next);
  }

  lemma TreesFrame(S: Records, T: Records, use: map<nat, Use>, use': map<nat, Use>)
    requires TreesOk(S, use) && SameCodebases(S, T) && (forall i :: i in use ==> i in use' && use'[i] == use[i])
    ensures TreesOk(T, use')
  {
    forall p | TreeKey(p) in T ensures T[TreeKey(p)].TreeRec? && T[TreeKey(p)].id in use' {
      assert SameAt(S, T, TreeKey(p));
    }
    forall x | Live(T, x) ensures IndexesOk(T, use', x) {
      assert SameAt(S, T, InfoKey(x)) && IndexesOk(S, use, x);
      assert SameAt(S, T, TreeKey(PathOf(S, x) + "/")) && SameAt(S, T, TreeKey(PathOf(S, x) + ETAGS));
    }
  }

  // An entry other than the one at hand stays in order if no content of its ids is dropped.
  lemma EntryFrame(S: Records, T: Records, use: map<nat, Use>, use': map<nat, Use>, c: nat, p: string)
    requires EntryOk(S, use, c, p)
    requires SameAt(S, T, OwnKey(c, p)) && SameAt(S, T, EditKey(c, p)) && SameAt(S, T, ErasedKey(c, p))
    requires forall d :: Live(S, d) ==> Live(T, d)
    requires forall i :: i in use ==> i in use' && use'[i] == use[i]
    requires forall i :: FileKey(i) in S && i in use && use[i] == FileOf(c, p) ==> FileKey(i) in T
    ensures EntryOk(T, use', c, p)
  {
  }

  lemma UseKeepsInv(S: Records, next: nat, use: map<nat, Use>, u: Use)
    requires Inv(S, next, use)
    ensures Inv(S, next + 1, use[next := u])
  {
    CodebasesFrame(S, S, next, next + 1);
    TreesFrame(S, S, use, use[next := u]);
    var use' := use[next := u];
    forall d, p ensures EntryOk(S, use', d, p) {
      assert EntryOk(S, use, d, p);
    }
  }

  lemma SetFileEntries(S: Records, use: map<nat, Use>, c: nat, path: string, id: nat, data: string)
    requires FilesOk(S, use) && Live(S, c) && FilePathOk(path)
    requires id in use && use[id] == FileOf(c, path)
    requires OwnKey(c, path) in S ==> S[OwnKey(c, path)] != Id(id)
    ensures FilesOk(AfterSetFile(S, c, path, id, data), use)
  {
    var T := AfterSetFile(S, c, path, id, data);
    forall d, p ensures EntryOk(T, use, d, p) {
      assert EntryOk(S, use, d, p);
      if d != c || p != path {
        assert T[FileKey(id)].Content?;
        EntryFrame(S, T, use, use, d, p);
      }
    }
  }

  lemma SetFileKeepsInv(S: Records, next: nat, use: map<nat, Use>, c: nat, path: string, id: nat, data: string)
    requires Inv(S, next, use) && Live(S, c) && FilePathOk(path)
    requires id in use && use[id] == FileOf(c, path)
    requires OwnKey(c, path) in S ==> S[OwnKey(c, path)] != Id(id)
    ensures Inv(AfterSetFile(S, c, path, id, data), next, use)
  {
    var T := AfterSetFile(S, c, path, id, data);
    CodebasesFrame(S, T, next, next);
    TreesFrame(S, T, use, use);
    SetFileEntries(S, use, c, path, id, data);
  }

  lemma WithoutEditEntries(S: Records, use: map<nat, Use>, c: nat, path: string)
    requires FilesOk(S, use)
    ensures FilesOk(WithoutEdit(S, c, path), use) && EditKey(c, path) !in WithoutEdit(S, c, path)
  {
    var T := WithoutEdit(S, c, path);
    assert EntryOk(S, use, c, path);
    forall d, p ensures EntryOk(T, use, d, p) {
      assert EntryOk(S, use, d, p);
      if d != c || p != path {
        EntryFrame(S, T, use, use, d, p);
      }
    }
  }

  lemma WithoutEditKeepsInv(S: Records, next: nat, use: map<nat, Use>, c: nat, path: string)
    requires Inv(S, next, use)
    ensures Inv(WithoutEdit(S, c, path), next, use) && EditKey(c, path) !in WithoutEdit(S, c, path)
  {
    var T := WithoutEdit(S, c, path);
    CodebasesFrame(S, T, next, next);
    TreesFrame(S, T, use, use);
    WithoutEditEntries(S, use, c, path);
  }

  lemma EraseFileKeepsInv(S: Records, next: nat, use: map<nat, Use>, c: nat, path: string)
    requires Inv(S, next, use)
    ensures Inv(AfterEraseFile(S, c, path), next, use)
  {
    var T, U := WithoutEdit(S, c, path), AfterEraseFile(S, c, path);
    WithoutEditKeepsInv(S, next, use, c, path);
    CodebasesFrame(T, U, next, next);
    TreesFrame(T, U, use, use);
    forall d, p ensures EntryOk(U, use, d, p) {
      assert EntryOk(T, use, d, p);
      if d != c || p != path {
        EntryFrame(T, U, use, use, d, p);
      }
    }
  }

  lemma ResetFileKeepsInv(S: Records, next: nat, use: map<nat, Use>, c: nat, path: string)
    requires Inv(S, next, use)
    ensures Inv(AfterResetFile(S, c, path), next, use)
  {
    var T, U := WithoutEdit(S, c, path), AfterResetFile(S, c, path);
    WithoutEditKeepsInv(S, next, use, c, path);
    CodebasesFrame(T, U, next, next);
    TreesFrame(T, U, use, use);
    forall d, p ensures EntryOk(U, use, d, p) {
      assert EntryOk(T, use, d, p);
      if d != c || p != path {
        EntryFrame(T, U, use, use, d, p);
      }
    }
  }
}
