// What readers find after a codebase was made, given another main file, or reset.
module CodebaseReaders {
  import opened Codebase
  import opened CodebaseErase

  // ----- reading the same ------------------------------------------------------------------

  // The base of x and its files are the same.
  ghost predicate SameBase(S: Records, T: Records, x: nat)
    requires Live(S, x)
  {
    Live(T, x) && BaseOf(T, x) == BaseOf(S, x) && forall p :: SameAt(S, T, OwnKey(x, p))
  }

  lemma {:induction false} ResolvesSame(S: Records, T: Records, x: nat)
    requires Typed(S) && Typed(T) && Chained(S) && Chained(T) && (x == 0 || Live(S, x))
    requires forall c {:trigger Live(S, c)} :: Live(S, c) ==> SameBase(S, T, c)
    ensures (x == 0 || Live(T, x)) && Resolve(T, x) == Resolve(S, x)
  {
    if x != 0 {
      assert BaseOk(S, x) && BaseOk(T, x) && SameBase(S, T, x);
      ResolvesSame(S, T, BaseOf(S, x));
      OwnDomain(S, x);
      OwnDomain(T, x);
      assert Own(T, x) == Own(S, x);
    }
  }

  ghost predicate SamePending(S: Records, T: Records, x: nat) {
    forall p :: SameAt(S, T, EditKey(x, p)) && SameAt(S, T, ErasedKey(x, p))
  }

  lemma LooksSame(S: Records, T: Records, x: nat)
    requires Typed(S) && Typed(T) && Chained(S) && Chained(T) && Live(S, x)
    requires forall c {:trigger Live(S, c)} :: Live(S, c) ==> SameBase(S, T, c)
    requires SamePending(S, T, x)
    ensures Live(T, x) && Inherited(T, x) == Inherited(S, x) && Lookup(T, x) == Lookup(S, x)
  {
    assert BaseOk(S, x) && BaseOk(T, x) && SameBase(S, T, x);
    ResolvesSame(S, T, BaseOf(S, x));
    OwnDomain(S, x);
    OwnDomain(T, x);
    PendingDomain(S, x);
    PendingDomain(T, x);
    assert Own(T, x) == Own(S, x) && Edits(T, x) == Edits(S, x) && Erasures(T, x) == Erasures(S, x);
  }

  // ----- making ------------------------------------------------------------------------------

  // Where the codebase `id` is new, every other shows what it showed.
  ghost predicate OnlyAdds(S: Records, T: Records, id: nat)
    requires Chained(S) && Chained(T)
  {
    forall d {:trigger Live(S, d)} :: Live(S, d) ==> d != id && Live(T, d) && Lookup(T, d) == Lookup(S, d)
  }

  ghost predicate Adds(S: Records, T: Records, id: nat) {
    && !Live(S, id)
    && (forall c :: c != id ==> SameAt(S, T, InfoKey(c)) && SamePending(S, T, c))
    && (forall c, p :: c != id ==> SameAt(S, T, OwnKey(c, p)))
  }

  lemma AddsShows(S: Records, T: Records, id: nat)
    requires Typed(S) && Typed(T) && Chained(S) && Chained(T) && Adds(S, T, id)
    ensures OnlyAdds(S, T, id)
  {
    forall c | Live(S, c) ensures SameBase(S, T, c) {
      assert SameAt(S, T, InfoKey(c));
    }
    forall d | Live(S, d) ensures d != id && Live(T, d) && Lookup(T, d) == Lookup(S, d) {
      LooksSame(S, T, d);
    }
  }

  lemma AfterMakeAdds(S: Records, id: nat, path: string, version: string, base: nat, main: string, file: nat,
                      text: string)
    requires (base == 0 || Live(S, base)) && !Live(S, id)
    ensures Adds(S, AfterMake(S, id, path, version, base, main), id)
    ensures Adds(S, AfterMakeMain(AfterMake(S, id, path, version, base, main), id, file, text), id)
  {
  }

  // A codebase with no pending changes shows its own files over what it inherits.
  lemma NothingPending(T: Records, id: nat, own: map<string, nat>)
    requires Typed(T) && Chained(T) && Live(T, id)
    requires forall p :: EditKey(id, p) !in T && ErasedKey(id, p) !in T
    requires forall p :: OwnKey(id, p) in T <==> p in own
    requires forall p :: p in own ==> T[OwnKey(id, p)] == Id(own[p])
    ensures Lookup(T, id) == Inherited(T, id) + own
  {
    OwnDomain(T, id);
    PendingDomain(T, id);
    assert Own(T, id) == own && Edits(T, id) == map[] && Erasures(T, id) == map[];
    assert (own + Edits(T, id)) - Erasures(T, id).Keys == own;
  }

  lemma AddsInherits(S: Records, T: Records, id: nat, base: nat)
    requires Typed(S) && Typed(T) && Chained(S) && Chained(T) && Adds(S, T, id)
    requires Live(T, id) && BaseOf(T, id) == base && (base == 0 || Live(S, base))
    ensures Inherited(T, id) == Resolve(S, base)
  {
    assert BaseOk(T, id);
    forall c | Live(S, c) ensures SameBase(S, T, c) {
      assert SameAt(S, T, InfoKey(c));
    }
    ResolvesSame(S, T, base);
  }

  ghost predicate HasOnly(T: Records, id: nat, own: map<string, nat>) {
    && (forall p :: EditKey(id, p) !in T && ErasedKey(id, p) !in T)
    && (forall p :: OwnKey(id, p) in T <==> p in own)
    && (forall p :: p in own ==> T[OwnKey(id, p)] == Id(own[p]))
  }

  lemma AddedShows(S: Records, T: Records, id: nat, base: nat, own: map<string, nat>)
    requires Typed(S) && Typed(T) && Chained(S) && Chained(T) && Adds(S, T, id)
    requires Live(T, id) && BaseOf(T, id) == base && (base == 0 || Live(S, base)) && HasOnly(T, id, own)
    ensures Lookup(T, id) == Resolve(S, base) + own && OnlyAdds(S, T, id)
  {
    AddsShows(S, T, id);
    AddsInherits(S, T, id, base);
    NothingPending(T, id, own);
  }

  // Whatever the path, the records stay typed and the bases chained.
  lemma MadeIsChained(S: Records, next: nat, use: map<nat, Use>, path: string, version: string, base: nat,
                      main: string)
    requires Inv(S, next, use) && (base == 0 || Live(S, base))
    ensures var T := AfterMake(S, next, path, version, base, main);
      Typed(T) && Chained(T) && Live(T, next) && BaseOf(T, next) == base
  {
    NewIdIsFresh(S, next, use);
    LiveBound(S, next, use);
    var T := AfterMake(S, next, path, version, base, main);
    forall c | Live(T, c) ensures BaseOk(T, c) {
      if c != next {
        assert BaseOk(S, c);
      }
    }
  }

  lemma MainIsChained(S: Records, id: nat, file: nat, text: string)
    requires Typed(S) && Chained(S)
    ensures Typed(AfterMakeMain(S, id, file, text)) && Chained(AfterMakeMain(S, id, file, text))
  {
    var T := AfterMakeMain(S, id, file, text);
    forall c | Live(T, c) ensures BaseOk(T, c) {
      assert BaseOk(S, c);
    }
  }

  // A derived codebase shows what its base has committed and inherits.
  lemma MakeDerivedShows(S: Records, next: nat, use: map<nat, Use>, path: string, version: string, base: nat,
                         main: string)
    requires Inv(S, next, use) && base != 0 && Live(S, base)
    ensures var T := AfterMake(S, next, path, version, base, main);
      && Chained(T) && Live(T, next) && Lookup(T, next) == Resolve(S, base) && OnlyAdds(S, T, next)
  {
    var T := AfterMake(S, next, path, version, base, main);
    NewIdIsFresh(S, next, use);
    MadeIsChained(S, next, use, path, version, base, main);
    AfterMakeAdds(S, next, path, version, base, main, 0, "");
    AddedShows(S, T, next, base, map[]);
    PlusNothing(Resolve(S, base));
  }

  lemma PlusNothing(m: map<string, nat>)
    ensures m + map[] == m && map[] + m == m
  {
  }

  lemma RootIsAdded(S: Records, next: nat, use: map<nat, Use>, path: string, version: string, text: string)
    requires Inv(S, next, use)
    ensures var T := AfterMakeMain(AfterMake(S, next, path, version, 0, MAIN), next, next + 1, text);
      && Typed(T) && Chained(T) && Live(T, next) && BaseOf(T, next) == 0
      && Adds(S, T, next) && HasOnly(T, next, map[MAIN := next + 1])
  {
    NewIdIsFresh(S, next, use);
    MadeIsChained(S, next, use, path, version, 0, MAIN);
    MainIsChained(AfterMake(S, next, path, version, 0, MAIN), next, next + 1, text);
    AfterMakeAdds(S, next, path, version, 0, MAIN, next + 1, text);
  }

  // A codebase without a base shows its main file, from the template, and nothing else.
  lemma MakeRootShows(S: Records, next: nat, use: map<nat, Use>, path: string, version: string, text: string)
    requires Inv(S, next, use)
    ensures var T := AfterMakeMain(AfterMake(S, next, path, version, 0, MAIN), next, next + 1, text);
      && Chained(T) && Live(T, next) && Lookup(T, next) == map[MAIN := next + 1]
      && T[FileKey(next + 1)] == Content(Blob(text)) && OnlyAdds(S, T, next)
  {
    var T := AfterMakeMain(AfterMake(S, next, path, version, 0, MAIN), next, next + 1, text);
    RootIsAdded(S, next, use, path, version, text);
    AddedShows(S, T, next, 0, map[MAIN := next + 1]);
    PlusNothing(map[MAIN := next + 1]);
  }

  // Either way.
  lemma MakeShows(S: Records, next: nat, use: map<nat, Use>, path: string, version: string, base: nat, text: string)
    requires Inv(S, next, use) && (base == 0 || Live(S, base))
    ensures base != 0 ==> var T := AfterMake(S, next, path, version, base, S[InfoKey(base)].main);
      && Chained(T) && Live(T, next) && Lookup(T, next) == Resolve(S, base) && OnlyAdds(S, T, next)
    ensures base == 0 ==> var T := AfterMakeMain(AfterMake(S, next, path, version, 0, MAIN), next, next + 1, text);
      && Chained(T) && Live(T, next) && Lookup(T, next) == map[MAIN := next + 1] && OnlyAdds(S, T, next)
      && T[FileKey(next + 1)] == Content(Blob(text))
  {
    if base != 0 {
      MakeDerivedShows(S, next, use, path, version, base, S[InfoKey(base)].main);
    } else {
      MakeRootShows(S, next, use, path, version, text);
    }
  }

  // What use the ids are put to: a new main file, and what was left where the index will be.
  ghost function UseAfterMake(S: Records, next: nat, use: map<nat, Use>, path: string, base: nat): map<nat, Use> {
    var claimed := if PathFree(S, path) && IndexFree(S, path) then Claimed(S, use, path) else use;
    if base != 0 then claimed else claimed[next + 1 := FileOf(next, MAIN)]
  }

  // The repository with the new codebase is in order exactly if its path is free and nothing
  // else has the ids left where its manifest and its etags will be.
  lemma MakeDerivedKeepsInv(S: Records, next: nat, use: map<nat, Use>, path: string, version: string, base: nat,
                            main: string)
    requires Inv(S, next, use) && base != 0 && Live(S, base)
    ensures var T, use' := AfterMake(S, next, path, version, base, main), UseAfterMake(S, next, use, path, base);
      Inv(T, next + 1, use') <==> PathFree(S, path) && IndexFree(S, path)
  {
    var T, use' := AfterMake(S, next, path, version, base, main), UseAfterMake(S, next, use, path, base);
    if PathFree(S, path) && IndexFree(S, path) {
      ClaimedKeepsInv(S, next, use, path);
      MakeKeepsInv(S, next, use', next, path, version, base, main);
    } else if Inv(T, next + 1, use') {
      NewIdIsFresh(S, next, use);
      MakeBreaks(S, next, use, T, next + 1, use', next, path);
    }
  }

  lemma MakeRootKeepsOrder(S: Records, next: nat, use: map<nat, Use>, path: string, version: string, text: string)
    requires Inv(S, next, use)
    ensures var T := AfterMakeMain(AfterMake(S, next, path, version, 0, MAIN), next, next + 1, text);
      Inv(T, next + 2, UseAfterMake(S, next, use, path, 0)) <==> PathFree(S, path) && IndexFree(S, path)
  {
    var T := AfterMakeMain(AfterMake(S, next, path, version, 0, MAIN), next, next + 1, text);
    var use' := UseAfterMake(S, next, use, path, 0);
    if PathFree(S, path) && IndexFree(S, path) {
      ClaimedKeepsInv(S, next, use, path);
      MakeRootKeepsInv(S, next, Claimed(S, use, path), path, version, text);
    } else if Inv(T, next + 2, use') {
      NewIdIsFresh(S, next, use);
      MakeBreaks(S, next, use, T, next + 2, use', next, path);
    }
  }

  // ----- another main file -------------------------------------------------------------------

  ghost function AfterSetMain(S: Records, c: nat, main: string): Records
    requires Live(S, c)
  {
    S[InfoKey(c) := Info(VersionOf(S, c), PathOf(S, c), BaseOf(S, c), main)]
  }

  // It leaves the version, the path and the base of every codebase.
  lemma SetMainKeepsRest(S: Records, c: nat, main: string, x: nat)
    requires Live(S, c)
    ensures var T := AfterSetMain(S, c, main);
      && (Live(T, x) <==> Live(S, x))
      && (Live(S, x) ==>
           PathOf(T, x) == PathOf(S, x) && BaseOf(T, x) == BaseOf(S, x) && VersionOf(T, x) == VersionOf(S, x))
  {
  }

  lemma SetMainKeepsOne(S: Records, next: nat, c: nat, main: string, x: nat)
    requires Live(S, c) && Live(S, x) && CodebaseOk(S, next, x)
    ensures var T := AfterSetMain(S, c, main); Live(T, x) && CodebaseOk(T, next, x)
  {
    SetMainKeepsRest(S, c, main, x);
    SetMainKeepsRest(S, c, main, BaseOf(S, x));
  }

  lemma SetMainCodebases(S: Records, next: nat, c: nat, main: string)
    requires CodebasesOk(S, next) && Live(S, c)
    ensures CodebasesOk(AfterSetMain(S, c, main), next)
    ensures forall x :: Live(AfterSetMain(S, c, main), x) <==> Live(S, x)
  {
    var T := AfterSetMain(S, c, main);
    forall x
      ensures (Live(T, x) <==> Live(S, x)) && (Live(S, x) ==> PathOf(T, x) == PathOf(S, x))
    {
      SetMainKeepsRest(S, c, main, x);
    }
    forall x | Live(T, x) ensures CodebaseOk(T, next, x) && BaseOk(T, x) {
      assert CodebaseOk(S, next, x);
      SetMainKeepsOne(S, next, c, main, x);
    }
    forall b, d | DerivedKey(b, d) in T ensures b != 0 && Live(T, d) && BaseOf(T, d) == b {
      SetMainKeepsRest(S, c, main, d);
    }
  }

  // The manifests aside, a reader cannot tell.
  lemma SetMainShows(S: Records, next: nat, use: map<nat, Use>, c: nat, main: string, d: nat)
    requires Inv(S, next, use) && Live(S, c) && Live(S, d)
    ensures var T := AfterSetMain(S, c, main); Inv(T, next, use) && Live(T, d) && Lookup(T, d) == Lookup(S, d)
  {
    var T := AfterSetMain(S, c, main);
    SetMainCodebases(S, next, c, main);
    forall e, p ensures EntryOk(T, use, e, p) {
      assert EntryOk(S, use, e, p);
    }
    forall x | Live(T, x) ensures IndexesOk(T, use, x) {
      assert IndexesOk(S, use, x);
    }
    LooksSame(S, T, d);
  }

  // ----- reset -----------------------------------------------------------------------------------

  function EditKeys(S: Records, c: nat): set<Key> {
    set k | k in S && k.EditKey? && k.cb == c
  }

  function ContentKeys(S: Records, keys: set<Key>): set<Key> {
    set k | k in keys && k in S && S[k].Id? :: FileKey(S[k].id)
  }

  lemma OneMoreContent(S: Records, keys: set<Key>, k: Key)
    requires k in S && S[k].Id?
    ensures ContentKeys(S, keys + {k}) == ContentKeys(S, keys) + {FileKey(S[k].id)}
  {
    assert k in keys + {k};
  }

  // The edits of c and their contents.
  function EditRecords(S: Records, c: nat): set<Key> {
    EditKeys(S, c) + ContentKeys(S, EditKeys(S, c))
  }

  // What get_file finds in d after c was reset.
  ghost function AtAfterReset(S: Records, c: nat, d: nat, p: string): nat
    requires Chained(S) && Live(S, d)
  {
    if d != c then At(Lookup(S, d), p)
    else if ErasedKey(d, p) in S then At(Inherited(S, d), p)
    else At(Resolve(S, d), p)
  }

  ghost function AfterReset(S: Records, c: nat): Records {
    S - EditRecords(S, c)
  }

  lemma ResetDrops(S: Records, next: nat, use: map<nat, Use>, c: nat, k: Key)
    requires Inv(S, next, use)
    ensures !k.EditKey? && !k.FileKey? ==> SameAt(S, AfterReset(S, c), k)
    ensures k.EditKey? ==> (k in AfterReset(S, c) <==> k in S && k.cb != c)
    ensures k.EditKey? && k.cb != c ==> SameAt(S, AfterReset(S, c), k)
  {
  }

  // The content of a file that is not an edit of c stays.
  lemma ResetKeepsContent(S: Records, next: nat, use: map<nat, Use>, c: nat, d: nat, p: string)
    requires Inv(S, next, use)
    ensures OwnKey(d, p) in S ==> SameAt(S, AfterReset(S, c), FileKey(S[OwnKey(d, p)].id))
    ensures EditKey(d, p) in S && d != c ==> SameAt(S, AfterReset(S, c), FileKey(S[EditKey(d, p)].id))
  {
    assert EntryOk(S, use, d, p);
    forall k | k in EditKeys(S, c)
      ensures OwnKey(d, p) in S ==> S[k].id != S[OwnKey(d, p)].id
      ensures EditKey(d, p) in S && d != c ==> S[k].id != S[EditKey(d, p)].id
    {
      assert EntryOk(S, use, c, k.path);
    }
  }

  lemma ResetKeepsInv(S: Records, next: nat, use: map<nat, Use>, c: nat)
    requires Inv(S, next, use)
    ensures Inv(AfterReset(S, c), next, use)
  {
    var T := AfterReset(S, c);
    assert SameCodebases(S, T) by {
      forall k: Key | k.InfoKey? || k.PathKey? || k.DerivedKey? || k.TreeKey? ensures SameAt(S, T, k) {
        ResetDrops(S, next, use, c, k);
      }
    }
    CodebasesFrame(S, T, next, next);
    TreesFrame(S, T, use, use);
    forall d, p ensures EntryOk(T, use, d, p) {
      assert EntryOk(S, use, d, p);
      ResetKeepsContent(S, next, use, c, d, p);
      assert SameAt(S, T, InfoKey(d));
    }
  }

  // A reset drops the edits of c, not its erasures: an erased path still shows what is
  // inherited, any other path what was committed or is inherited.
  lemma ResetShows(S: Records, next: nat, use: map<nat, Use>, c: nat, d: nat, p: string)
    requires Inv(S, next, use) && Live(S, d)
    ensures var T := AfterReset(S, c);
      && Inv(T, next, use) && Live(T, d)
      && At(Lookup(T, d), p) == AtAfterReset(S, c, d, p)
  {
    var T := AfterReset(S, c);
    ResetKeepsInv(S, next, use, c);
    forall x | Live(S, x) ensures SameBase(S, T, x) {
      ResetDrops(S, next, use, c, InfoKey(x));
      forall q ensures SameAt(S, T, OwnKey(x, q)) {
        ResetDrops(S, next, use, c, OwnKey(x, q));
      }
    }
    assert SameBase(S, T, d) && BaseOk(S, d) && BaseOk(T, d);
    ResolvesSame(S, T, BaseOf(S, d));
    ResetDrops(S, next, use, c, ErasedKey(d, p));
    ResetDrops(S, next, use, c, EditKey(d, p));
    LookupAt(S, d, p);
    LookupAt(T, d, p);
    ResolveAt(S, d, p);
  }
}
