// Chunks of bytes, views into them, and the books that say who owns which views in which
// order and what each view shows (src/data.hpp).
module DataBooks {
  const CHUNK_SIZE := 0x4000

  class Chunk {
    var retain_count: int
    var data: seq<bv8>

    constructor ()
      ensures retain_count == 0 && |data| == CHUNK_SIZE
    {
      retain_count := 0;
      data := seq(CHUNK_SIZE, _ => 0);
    }
  }

  class View {
    var prev: View?
    var next: View?
    var chunk: Chunk
    var offset: nat
    var length: nat

    constructor (chunk: Chunk, offset: nat, length: nat)
      ensures this.chunk == chunk && this.offset == offset && this.length == length
      ensures prev == null && next == null
    {
      this.chunk, this.offset, this.length := chunk, offset, length;
      prev, next := null, null;
    }
  }

  // A view in nobody's list is its own owner.
  datatype Books = Books(
    ropes: map<object, seq<View>>,   // every owner's views, in order
    base: map<object, int>,          // the number of an owner's first view
    owner: map<View, object>,
    place: map<View, int>,           // the number of a view
    text: map<View, seq<bv8>>)       // the bytes a view shows

  ghost predicate Listed(b: Books, o: object, i: int)
    requires o in b.ropes && 0 <= i < |b.ropes[o]|
  {
    var v := b.ropes[o][i];
    v in b.owner && b.owner[v] == o && o in b.base && v in b.place && b.place[v] == b.base[o] + i && v in b.text
  }

  ghost predicate Placed(b: Books, v: View)
    requires v in b.owner
  {
    var o := b.owner[v];
    && o in b.ropes && o in b.base && v in b.place && v in b.text
    && 0 <= b.place[v] - b.base[o] < |b.ropes[o]|
    && b.ropes[o][b.place[v] - b.base[o]] == v
  }

  ghost predicate Loose(b: Books, v: View) {
    v in b.owner && b.owner[v] == v && v in b.ropes && b.ropes[v] == [v]
  }

  // A view owns nothing but itself.
  ghost predicate Owns(b: Books, o: object) {
    o is View ==> Loose(b, o as View)
  }

  ghost predicate BooksOk(b: Books) {
    && b.ropes.Keys == b.base.Keys
    && (forall o {:trigger Owns(b, o)} :: o in b.ropes ==> Owns(b, o))
    && (forall o, i {:trigger Listed(b, o, i)} :: o in b.ropes && 0 <= i < |b.ropes[o]| ==> Listed(b, o, i))
    && (forall v {:trigger Placed(b, v)} :: v in b.owner ==> Placed(b, v))
  }

  // The bytes that views show one after the other.
  ghost function Cat(vs: seq<View>, text: map<View, seq<bv8>>): seq<bv8>
    requires forall v <- vs :: v in text
  {
    if vs == [] then [] else Cat(vs[..|vs| - 1], text) + text[vs[|vs| - 1]]
  }

  ghost predicate Shown(vs: seq<View>, text: map<View, seq<bv8>>) {
    forall v <- vs :: v in text
  }

  lemma OwnedIsShown(b: Books, o: object)
    requires BooksOk(b) && o in b.ropes
    ensures Shown(b.ropes[o], b.text)
  {
    forall v | v in b.ropes[o] ensures v in b.text {
      var i :| 0 <= i < |b.ropes[o]| && b.ropes[o][i] == v;
      assert Listed(b, o, i);
    }
  }

  lemma RopeIsOwned(b: Books, o: object)
    requires BooksOk(b) && o in b.ropes
    ensures forall v <- b.ropes[o] :: v in b.owner && b.owner[v] == o
  {
    forall v | v in b.ropes[o] ensures v in b.owner && b.owner[v] == o {
      var i :| 0 <= i < |b.ropes[o]| && b.ropes[o][i] == v;
      assert Listed(b, o, i);
    }
  }

  ghost function Bytes(b: Books, o: object): seq<bv8>
    requires BooksOk(b) && o in b.ropes
  {
    OwnedIsShown(b, o);
    Cat(b.ropes[o], b.text)
  }

  ghost function Contents(b: Books): map<object, seq<bv8>>
    requires BooksOk(b)
  {
    map o | o in b.ropes :: Bytes(b, o)
  }

  // ----- concatenation -----------------------------------------------------------------

  lemma {:induction false} CatSame(vs: seq<View>, text: map<View, seq<bv8>>, text': map<View, seq<bv8>>)
    requires Shown(vs, text) && forall v <- vs :: v in text' && text'[v] == text[v]
    ensures Cat(vs, text') == Cat(vs, text)
  {
    if vs != [] {
      CatSame(vs[..|vs| - 1], text, text');
    }
  }

  lemma {:induction false} CatAppend(vs: seq<View>, ws: seq<View>, text: map<View, seq<bv8>>)
    requires Shown(vs, text) && Shown(ws, text)
    ensures Shown(vs + ws, text) && Cat(vs + ws, text) == Cat(vs, text) + Cat(ws, text)
  {
    if ws == [] {
      assert vs + ws == vs;
    } else {
      CatAppend(vs, ws[..|ws| - 1], text);
      assert (vs + ws)[..|vs + ws| - 1] == vs + ws[..|ws| - 1];
    }
  }

  lemma CatOne(v: View, text: map<View, seq<bv8>>)
    requires v in text
    ensures Cat([v], text) == text[v]
  {
    assert [v][..0] == [];
  }

  // ----- what happens to the books -------------------------------------------------------

  // What the books say of a view stays.
  ghost predicate Kept(b: Books, c: Books, v: View) {
    && v in b.owner && v in c.owner && c.owner[v] == b.owner[v]
    && v in b.text && v in c.text && c.text[v] == b.text[v]
    && (Loose(b, v) ==> Loose(c, v))
  }

  ghost predicate KeptBut(b: Books, c: Books, touched: set<View>) {
    forall v {:trigger Kept(b, c, v)} :: v in c.owner && v !in touched ==> Kept(b, c, v)
  }

  // Views other than v are listed where they were, and show what they showed.
  lemma SameBytes(b: Books, c: Books, o: object)
    requires BooksOk(b) && BooksOk(c) && o in b.ropes && o in c.ropes && c.ropes[o] == b.ropes[o]
    requires forall v :: v in b.owner && b.owner[v] == o ==> v in c.text && v in b.text && c.text[v] == b.text[v]
    ensures Bytes(c, o) == Bytes(b, o)
  {
    OwnedIsShown(b, o);
    forall v | v in b.ropes[o] ensures v in c.text && c.text[v] == b.text[v] {
      var i :| 0 <= i < |b.ropes[o]| && b.ropes[o][i] == v;
      assert Listed(b, o, i);
    }
    CatSame(b.ropes[o], b.text, c.text);
  }

  // Owners whose views and their texts stay show the same bytes.
  lemma OthersSame(b: Books, c: Books, touched: set<object>)
    requires BooksOk(b) && BooksOk(c)
    requires forall o :: o in b.ropes && o !in touched ==> o in c.ropes && c.ropes[o] == b.ropes[o]
    requires forall v :: v in b.owner && b.owner[v] !in touched ==> v in c.text && v in b.text && c.text[v] == b.text[v]
    ensures forall o :: o in b.ropes && o !in touched ==> Bytes(c, o) == Bytes(b, o)
  {
    forall o | o in b.ropes && o !in touched ensures Bytes(c, o) == Bytes(b, o) {
      SameBytes(b, c, o);
    }
  }

  ghost function Opened(b: Books, o: object): Books {
    b.(ropes := b.ropes[o := []], base := b.base[o := 0])
  }

  lemma OpenedOk(b: Books, o: object)
    requires BooksOk(b) && o !in b.ropes && !(o is View)
    ensures BooksOk(Opened(b, o)) && Contents(Opened(b, o)) == Contents(b)[o := []]
  {
    var c := Opened(b, o);
    forall v | v in c.owner ensures Placed(c, v) {
      assert Placed(b, v);
    }
    forall x | x in c.ropes ensures Owns(c, x) {
      assert x in b.ropes ==> Owns(b, x);
    }
    forall p, i | p in c.ropes && 0 <= i < |c.ropes[p]| ensures Listed(c, p, i) {
      assert Listed(b, p, i);
    }
    forall p | p in b.ropes ensures Bytes(c, p) == Bytes(b, p) {
      OwnedText(b);
      SameBytes(b, c, p);
    }
  }

  lemma OwnedText(b: Books)
    requires BooksOk(b)
    ensures forall v :: v in b.owner ==> v in b.text
  {
    forall v | v in b.owner ensures v in b.text {
      assert Placed(b, v);
    }
  }

  ghost function Closed(b: Books, o: object): Books {
    b.(ropes := b.ropes - {o}, base := b.base - {o})
  }

  lemma ClosedOk(b: Books, o: object)
    requires BooksOk(b) && o in b.ropes && b.ropes[o] == []
    ensures BooksOk(Closed(b, o)) && Contents(Closed(b, o)) == Contents(b) - {o}
  {
    var c := Closed(b, o);
    OwnedText(b);
    forall v | v in c.owner ensures Placed(c, v) {
      assert Placed(b, v);
    }
    forall x | x in c.ropes ensures Owns(c, x) {
      assert x in b.ropes ==> Owns(b, x);
    }
    forall p, i | p in c.ropes && 0 <= i < |c.ropes[p]| ensures Listed(c, p, i) {
      assert Listed(b, p, i);
    }
    forall p | p in c.ropes ensures Bytes(c, p) == Bytes(b, p) {
      SameBytes(b, c, p);
    }
  }

  ghost function Created(b: Books, v: View, t: seq<bv8>): Books {
    Books(b.ropes[v := [v]], b.base[v := 0], b.owner[v := v], b.place[v := 0], b.text[v := t])
  }

  lemma CreatedIsOk(b: Books, v: View, t: seq<bv8>)
    requires BooksOk(b) && v !in b.owner && v !in b.ropes
    ensures BooksOk(Created(b, v, t))
  {
    var c := Created(b, v, t);
    forall u | u in c.owner ensures Placed(c, u) {
      assert u in b.owner ==> Placed(b, u);
    }
    forall x | x in c.ropes ensures Owns(c, x) {
      assert x in b.ropes ==> Owns(b, x);
    }
    forall p, i | p in c.ropes && 0 <= i < |c.ropes[p]| ensures Listed(c, p, i) {
      assert p in b.ropes && p != v ==> Listed(b, p, i);
    }
  }

  lemma CreatedOk(b: Books, v: View, t: seq<bv8>)
    requires BooksOk(b) && v !in b.owner && v !in b.ropes
    ensures var c := Created(b, v, t); BooksOk(c) && Loose(c, v) && Contents(c) == Contents(b)[v := t]
  {
    var c := Created(b, v, t);
    CreatedIsOk(b, v, t);
    OwnedText(b);
    CatOne(v, c.text);
    OthersSame(b, c, {v});
  }

  lemma CreatedKeeps(b: Books, v: View, t: seq<bv8>)
    requires BooksOk(b) && v !in b.owner
    ensures KeptBut(b, Created(b, v, t), {v})
  {
    OwnedText(b);
  }

  ghost function Dropped(b: Books, v: View): Books {
    Books(b.ropes - {v}, b.base - {v}, b.owner - {v}, b.place - {v}, b.text - {v})
  }

  lemma DroppedOk(b: Books, v: View)
    requires BooksOk(b) && Loose(b, v)
    ensures var c := Dropped(b, v); BooksOk(c) && Contents(c) == Contents(b) - {v}
  {
    var c := Dropped(b, v);
    OwnedText(b);
    assert Listed(b, v, 0);
    forall u | u in c.owner ensures Placed(c, u) {
      assert Placed(b, u);
    }
    forall x | x in c.ropes ensures Owns(c, x) {
      assert x in b.ropes ==> Owns(b, x);
    }
    forall p, i | p in c.ropes && 0 <= i < |c.ropes[p]| ensures Listed(c, p, i) {
      assert Listed(b, p, i);
    }
    forall p | p in c.ropes ensures Bytes(c, p) == Bytes(b, p) {
      SameBytes(b, c, p);
    }
  }

  lemma DroppedKeeps(b: Books, v: View)
    requires BooksOk(b) && Loose(b, v)
    ensures KeptBut(b, Dropped(b, v), {v})
  {
    OwnedText(b);
  }

  // Another text for one view.
  ghost function Retold(b: Books, v: View, t: seq<bv8>): Books {
    b.(text := b.text[v := t])
  }

  lemma RetoldOk(b: Books, v: View, t: seq<bv8>)
    requires BooksOk(b) && v in b.owner
    ensures var c := Retold(b, v, t); BooksOk(c)
    ensures Placed(b, v) && Contents(Retold(b, v, t)) == Contents(b)[b.owner[v] := Bytes(Retold(b, v, t), b.owner[v])]
  {
    var c := Retold(b, v, t);
    OwnedText(b);
    assert Placed(b, v);
    forall u | u in c.owner ensures Placed(c, u) {
      assert Placed(b, u);
    }
    forall x | x in c.ropes ensures Owns(c, x) {
      assert x in b.ropes ==> Owns(b, x);
    }
    forall p, i | p in c.ropes && 0 <= i < |c.ropes[p]| ensures Listed(c, p, i) {
      assert Listed(b, p, i);
    }
    forall p | p in c.ropes && p != b.owner[v] ensures Bytes(c, p) == Bytes(b, p) {
      SameBytes(b, c, p);
    }
  }

  lemma RetoldKeeps(b: Books, v: View, t: seq<bv8>)
    requires BooksOk(b) && v in b.owner
    ensures KeptBut(b, Retold(b, v, t), {v})
  {
    OwnedText(b);
  }

  ghost function Pushed(b: Books, o: object, v: View): Books
    requires o in b.ropes && o in b.base
  {
    Books((b.ropes - {v})[o := b.ropes[o] + [v]], b.base - {v},
          b.owner[v := o], b.place[v := b.base[o] + |b.ropes[o]|], b.text)
  }

  lemma PushedOk(b: Books, o: object, v: View)
    requires BooksOk(b) && o in b.ropes && Loose(b, v) && !(o is View)
    ensures var c := Pushed(b, o, v);
      && BooksOk(c) && v in b.text
      && Contents(c) == (Contents(b) - {v})[o := Bytes(b, o) + b.text[v]]
  {
    var c := Pushed(b, o, v);
    OwnedText(b);
    assert Listed(b, v, 0);
    forall u | u in c.owner ensures Placed(c, u) {
      assert u != v ==> Placed(b, u);
    }
    forall x | x in c.ropes ensures Owns(c, x) {
      assert x in b.ropes ==> Owns(b, x);
    }
    forall p, i | p in c.ropes && 0 <= i < |c.ropes[p]| ensures Listed(c, p, i) {
      assert i < |b.ropes[p]| ==> Listed(b, p, i);
    }
    assert c.ropes[o][..|c.ropes[o]| - 1] == b.ropes[o];
    forall p | p in c.ropes && p != o ensures Bytes(c, p) == Bytes(b, p) {
      SameBytes(b, c, p);
    }
  }

  lemma PushedKeeps(b: Books, o: object, v: View)
    requires BooksOk(b) && o in b.ropes && Loose(b, v) && !(o is View)
    ensures KeptBut(b, Pushed(b, o, v), {v})
  {
    OwnedText(b);
  }

  ghost function Unshifted(b: Books, o: object, v: View): Books
    requires o in b.ropes && o in b.base
  {
    Books((b.ropes - {v})[o := [v] + b.ropes[o]], (b.base - {v})[o := b.base[o] - 1],
          b.owner[v := o], b.place[v := b.base[o] - 1], b.text)
  }

  lemma UnshiftedOk(b: Books, o: object, v: View)
    requires BooksOk(b) && o in b.ropes && Loose(b, v) && !(o is View)
    ensures var c := Unshifted(b, o, v);
      && BooksOk(c) && v in b.text
      && Contents(c) == (Contents(b) - {v})[o := b.text[v] + Bytes(b, o)]
  {
    var c := Unshifted(b, o, v);
    OwnedText(b);
    OwnedIsShown(b, o);
    assert Listed(b, v, 0);
    forall u | u in c.owner ensures Placed(c, u) {
      assert u != v ==> Placed(b, u);
    }
    forall x | x in c.ropes ensures Owns(c, x) {
      assert x in b.ropes ==> Owns(b, x);
    }
    forall p, i | p in c.ropes && 0 <= i < |c.ropes[p]| ensures Listed(c, p, i) {
      if p != o {
        assert Listed(b, p, i);
      } else if i > 0 {
        assert Listed(b, p, i - 1);
      }
    }
    CatOne(v, b.text);
    CatAppend([v], b.ropes[o], b.text);
    forall p | p in c.ropes && p != o ensures Bytes(c, p) == Bytes(b, p) {
      SameBytes(b, c, p);
    }
  }

  lemma UnshiftedKeeps(b: Books, o: object, v: View)
    requires BooksOk(b) && o in b.ropes && Loose(b, v) && !(o is View)
    ensures KeptBut(b, Unshifted(b, o, v), {v})
  {
    OwnedText(b);
  }

  // A view in a list owns nothing.
  lemma OwnersAreNoViews(b: Books, o: object, v: View)
    requires BooksOk(b) && v in b.owner && b.owner[v] == o && !(o is View)
    ensures v !in b.ropes
  {
    assert v in b.ropes ==> Owns(b, v);
  }

  ghost function Popped(b: Books, o: object): Books
    requires o in b.ropes && o in b.base && b.ropes[o] != []
  {
    var n := |b.ropes[o]| - 1;
    var v := b.ropes[o][n];
    Books(b.ropes[o := b.ropes[o][..n]][v := [v]], b.base[v := 0], b.owner[v := v], b.place[v := 0], b.text)
  }

  lemma PoppedOk(b: Books, o: object)
    requires BooksOk(b) && o in b.ropes && b.ropes[o] != [] && !(o is View)
    ensures var c := Popped(b, o); var v := b.ropes[o][|b.ropes[o]| - 1];
      && BooksOk(c) && Loose(c, v) && v in b.text
      && Bytes(b, o) == Bytes(c, o) + b.text[v]
      && Contents(c) == Contents(b)[o := Bytes(c, o)][v := b.text[v]]
  {
    var n := |b.ropes[o]| - 1;
    var v := b.ropes[o][n];
    var c := Popped(b, o);
    OwnedText(b);
    OwnedIsShown(b, o);
    assert Listed(b, o, n);
    OwnersAreNoViews(b, o, v);
    forall u | u in c.owner ensures Placed(c, u) {
      assert Placed(b, u);
    }
    forall x | x in c.ropes ensures Owns(c, x) {
      assert x in b.ropes ==> Owns(b, x);
    }
    forall p, i | p in c.ropes && 0 <= i < |c.ropes[p]| ensures Listed(c, p, i) {
      assert p != v ==> Listed(b, p, i);
    }
    CatOne(v, b.text);
    forall p | p in b.ropes && p != o ensures Bytes(c, p) == Bytes(b, p) {
      SameBytes(b, c, p);
    }
  }

  lemma PoppedKeeps(b: Books, o: object)
    requires BooksOk(b) && o in b.ropes && b.ropes[o] != [] && !(o is View)
    ensures KeptBut(b, Popped(b, o), {b.ropes[o][|b.ropes[o]| - 1]})
  {
    OwnedText(b);
  }

  ghost function Shifted(b: Books, o: object): Books
    requires o in b.ropes && o in b.base && b.ropes[o] != []
  {
    var v := b.ropes[o][0];
    Books(b.ropes[o := b.ropes[o][1..]][v := [v]], b.base[o := b.base[o] + 1][v := 0], b.owner[v := v],
          b.place[v := 0], b.text)
  }

  lemma ShiftedOk(b: Books, o: object)
    requires BooksOk(b) && o in b.ropes && b.ropes[o] != [] && !(o is View)
    ensures var c := Shifted(b, o); var v := b.ropes[o][0];
      && BooksOk(c) && Loose(c, v) && v in b.text
      && Bytes(b, o) == b.text[v] + Bytes(c, o)
      && Contents(c) == Contents(b)[o := Bytes(c, o)][v := b.text[v]]
  {
    var v := b.ropes[o][0];
    var c := Shifted(b, o);
    OwnedText(b);
    OwnedIsShown(b, o);
    assert Listed(b, o, 0);
    OwnersAreNoViews(b, o, v);
    forall u | u in c.owner ensures Placed(c, u) {
      assert Placed(b, u);
    }
    forall x | x in c.ropes ensures Owns(c, x) {
      assert x in b.ropes ==> Owns(b, x);
    }
    forall p, i | p in c.ropes && 0 <= i < |c.ropes[p]| ensures Listed(c, p, i) {
      if p == o {
        assert Listed(b, o, i + 1);
      } else if p != v {
        assert Listed(b, p, i);
      }
    }
    CatOne(v, b.text);
    CatAppend([v], b.ropes[o][1..], b.text);
    assert [v] + b.ropes[o][1..] == b.ropes[o];
    forall p | p in b.ropes && p != o ensures Bytes(c, p) == Bytes(b, p) {
      SameBytes(b, c, p);
    }
  }

  lemma ShiftedKeeps(b: Books, o: object)
    requires BooksOk(b) && o in b.ropes && b.ropes[o] != [] && !(o is View)
    ensures KeptBut(b, Shifted(b, o), {b.ropes[o][0]})
  {
    OwnedText(b);
  }

  // All views of p go to the end of o.
  ghost function Joined(b: Books, o: object, p: object): Books
    requires o in b.ropes && o in b.base && p in b.ropes && p in b.base
  {
    var shift := b.base[o] + |b.ropes[o]| - b.base[p];
    Books(b.ropes[o := b.ropes[o] + b.ropes[p]][p := []], b.base,
          map v | v in b.owner :: if b.owner[v] == p then o else b.owner[v],
          map v | v in b.owner && v in b.place :: if b.owner[v] == p then b.place[v] + shift else b.place[v],
          b.text)
  }

  lemma JoinedIsOk(b: Books, o: object, p: object)
    requires BooksOk(b) && o in b.ropes && p in b.ropes && o != p && !(o is View) && !(p is View)
    ensures BooksOk(Joined(b, o, p))
  {
    var c := Joined(b, o, p);
    forall u | u in c.owner ensures Placed(c, u) {
      assert Placed(b, u);
    }
    forall x | x in c.ropes ensures Owns(c, x) {
      assert x in b.ropes ==> Owns(b, x);
    }
    forall q, i | q in c.ropes && 0 <= i < |c.ropes[q]| ensures Listed(c, q, i) {
      if q == o && i >= |b.ropes[o]| {
        assert Listed(b, p, i - |b.ropes[o]|);
      } else {
        assert Listed(b, q, i);
      }
    }
  }

  lemma JoinedKeeps(b: Books, o: object, p: object)
    requires BooksOk(b) && o in b.ropes && p in b.ropes && o != p && !(o is View) && !(p is View)
    ensures KeptBut(b, Joined(b, o, p), set v <- b.ropes[p])
  {
    OwnedText(b);
    forall v | v in b.owner && v !in b.ropes[p] ensures b.owner[v] != p {
      assert Placed(b, v);
    }
  }

  lemma JoinedOk(b: Books, o: object, p: object)
    requires BooksOk(b) && o in b.ropes && p in b.ropes && o != p && !(o is View) && !(p is View)
    ensures var c := Joined(b, o, p); BooksOk(c) && Contents(c) == Contents(b)[o := Bytes(b, o) + Bytes(b, p)][p := []]
  {
    JoinedIsOk(b, o, p);
    JoinedBytes(b, o, p);
  }

  lemma JoinedBytes(b: Books, o: object, p: object)
    requires BooksOk(b) && o in b.ropes && p in b.ropes && o != p && BooksOk(Joined(b, o, p))
    ensures var c := Joined(b, o, p);
      && c.ropes.Keys == b.ropes.Keys && Bytes(c, o) == Bytes(b, o) + Bytes(b, p) && Bytes(c, p) == []
      && forall q :: q in b.ropes && q != o && q != p ==> Bytes(c, q) == Bytes(b, q)
  {
    var c := Joined(b, o, p);
    OwnedText(b);
    OwnedIsShown(b, o);
    OwnedIsShown(b, p);
    CatAppend(b.ropes[o], b.ropes[p], b.text);
    OthersSame(b, c, {o, p});
  }

  // ----- the last and the first view of an owner ------------------------------------------

  // The bytes of an owner, with another text for its view number i.
  lemma RetoldBytes(b: Books, o: object, i: nat, t: seq<bv8>)
    requires BooksOk(b) && o in b.ropes && i < |b.ropes[o]|
    ensures var vs := b.ropes[o];
      && vs[i] in b.owner && Shown(vs, b.text) && BooksOk(Retold(b, vs[i], t))
      && Bytes(b, o) == Cat(vs[..i], b.text) + b.text[vs[i]] + Cat(vs[i + 1..], b.text)
      && Contents(Retold(b, vs[i], t)) == Contents(b)[o := Cat(vs[..i], b.text) + t + Cat(vs[i + 1..], b.text)]
  {
    var vs := b.ropes[o];
    assert Listed(b, o, i);
    OwnedIsShown(b, o);
    RetoldOk(b, vs[i], t);
    var c := Retold(b, vs[i], t);
    forall v | v in vs[..i] || v in vs[i + 1..] ensures v in b.text && v != vs[i] {
      var j :| 0 <= j < |vs| && vs[j] == v && j != i;
      assert Listed(b, o, j);
    }
    CatSame(vs[..i], b.text, c.text);
    CatSame(vs[i + 1..], b.text, c.text);
    CatAround(vs, i, b.text);
    CatAround(vs, i, c.text);
  }

  lemma CatAround(vs: seq<View>, i: nat, text: map<View, seq<bv8>>)
    requires Shown(vs, text) && i < |vs|
    ensures Cat(vs, text) == Cat(vs[..i], text) + text[vs[i]] + Cat(vs[i + 1..], text)
  {
    CatOne(vs[i], text);
    CatAppend(vs[..i], [vs[i]], text);
    CatAppend(vs[..i] + [vs[i]], vs[i + 1..], text);
    assert vs == vs[..i] + [vs[i]] + vs[i + 1..];
  }

  // A loose view merged into the last view of an owner.
  ghost function MergedLast(b: Books, o: object, v: View): Books
    requires o in b.ropes && b.ropes[o] != [] && v in b.text && b.ropes[o][|b.ropes[o]| - 1] in b.text
  {
    var w := b.ropes[o][|b.ropes[o]| - 1];
    Retold(Dropped(b, v), w, b.text[w] + b.text[v])
  }

  // A loose view merged into the first view of an owner.
  ghost function MergedFirst(b: Books, o: object, v: View): Books
    requires o in b.ropes && b.ropes[o] != [] && v in b.text && b.ropes[o][0] in b.text
  {
    var w := b.ropes[o][0];
    Retold(Dropped(b, v), w, b.text[v] + b.text[w])
  }

  lemma DroppedText(b: Books, o: object, v: View)
    requires BooksOk(b) && o in b.ropes && !(o is View) && Loose(b, v)
    ensures BooksOk(Dropped(b, v)) && Dropped(b, v).ropes[o] == b.ropes[o] && v in b.text
    ensures forall u :: u in b.ropes[o] ==> u in b.text && u in Dropped(b, v).text && Dropped(b, v).text[u] == b.text[u]
  {
    DroppedOk(b, v);
    RopeIsOwned(b, o);
    OwnedText(b);
  }

  lemma MergedLastOk(b: Books, o: object, v: View)
    requires BooksOk(b) && o in b.ropes && !(o is View) && b.ropes[o] != [] && Loose(b, v)
    ensures var w := b.ropes[o][|b.ropes[o]| - 1]; v in b.text && w in b.text
    ensures var c := MergedLast(b, o, v); BooksOk(c) && Contents(c) == (Contents(b) - {v})[o := Bytes(b, o) + b.text[v]]
  {
    DroppedOk(b, v);
    DroppedText(b, o, v);
    var d := Dropped(b, v);
    var n := |b.ropes[o]| - 1;
    assert Bytes(d, o) == Contents(d)[o] == Bytes(b, o);
    var w := b.ropes[o][n];
    RetoldBytes(d, o, n, b.text[w] + b.text[v]);
    var before := Cat(d.ropes[o][..n], d.text);
    assert d.ropes[o][n + 1..] == [];
    assert before + (b.text[w] + b.text[v]) + [] == before + b.text[w] + [] + b.text[v];
  }

  lemma MergedFirstOk(b: Books, o: object, v: View)
    requires BooksOk(b) && o in b.ropes && !(o is View) && b.ropes[o] != [] && Loose(b, v)
    ensures var w := b.ropes[o][0]; v in b.text && w in b.text
    ensures var c := MergedFirst(b, o, v);
      BooksOk(c) && Contents(c) == (Contents(b) - {v})[o := b.text[v] + Bytes(b, o)]
  {
    DroppedOk(b, v);
    DroppedText(b, o, v);
    var d := Dropped(b, v);
    assert Bytes(d, o) == Contents(d)[o] == Bytes(b, o);
    var w := b.ropes[o][0];
    RetoldBytes(d, o, 0, b.text[v] + b.text[w]);
    var after := Cat(d.ropes[o][1..], d.text);
    assert d.ropes[o][..0] == [];
    assert [] + (b.text[v] + b.text[w]) + after == b.text[v] + ([] + b.text[w] + after);
  }

  // ----- what others own ----------------------------------------------------------------------

  // What others than o and the view v own stays.
  ghost predicate Aside(b: Books, c: Books, o: object, v: View) {
    && (forall p :: p in b.ropes && p != o && p != v ==> p in c.ropes && c.ropes[p] == b.ropes[p])
    && (forall x {:trigger x in c.owner} {:trigger x in c.text} ::
         x in b.owner && x in b.text && b.owner[x] != o && x != v ==>
           x in c.owner && x in c.text && c.owner[x] == b.owner[x] && c.text[x] == b.text[x])
  }

  lemma PushedAside(b: Books, o: object, v: View)
    requires BooksOk(b) && o in b.ropes && Loose(b, v)
    ensures Aside(b, Pushed(b, o, v), o, v)
  {
  }

  lemma UnshiftedAside(b: Books, o: object, v: View)
    requires BooksOk(b) && o in b.ropes && Loose(b, v)
    ensures Aside(b, Unshifted(b, o, v), o, v)
  {
  }

  lemma MergedLastAside(b: Books, o: object, v: View)
    requires BooksOk(b) && o in b.ropes && b.ropes[o] != [] && Loose(b, v) && !(o is View)
    ensures v in b.text && b.ropes[o][|b.ropes[o]| - 1] in b.text && Aside(b, MergedLast(b, o, v), o, v)
  {
    OwnedText(b);
    assert Listed(b, o, |b.ropes[o]| - 1);
  }

  lemma MergedFirstAside(b: Books, o: object, v: View)
    requires BooksOk(b) && o in b.ropes && b.ropes[o] != [] && Loose(b, v) && !(o is View)
    ensures v in b.text && b.ropes[o][0] in b.text && Aside(b, MergedFirst(b, o, v), o, v)
  {
    OwnedText(b);
    assert Listed(b, o, 0);
  }

  lemma PoppedAside(b: Books, o: object)
    requires BooksOk(b) && o in b.ropes && b.ropes[o] != []
    ensures Aside(b, Popped(b, o), o, b.ropes[o][|b.ropes[o]| - 1])
  {
  }

  lemma ShiftedAside(b: Books, o: object)
    requires BooksOk(b) && o in b.ropes && b.ropes[o] != []
    ensures Aside(b, Shifted(b, o), o, b.ropes[o][0])
  {
  }

  // ----- splitting ------------------------------------------------------------------------------

  // The first n bytes of the first view of an owner go to a new view.
  lemma SplitFirstOk(b: Books, o: object, r: View, n: nat)
    requires BooksOk(b) && o in b.ropes && !(o is View) && b.ropes[o] != [] && r !in b.owner && r !in b.ropes
    requires b.ropes[o][0] in b.text && n <= |b.text[b.ropes[o][0]]|
    ensures var v := b.ropes[o][0]; var t := b.text[v];
      var c := Retold(Created(b, r, t[..n]), v, t[n..]);
      && BooksOk(c) && Loose(c, r) && n <= |Bytes(b, o)| && c.text[r] == Bytes(b, o)[..n]
      && Contents(c) == Contents(b)[r := c.text[r]][o := Bytes(b, o)[n..]]
  {
    var v := b.ropes[o][0];
    var t := b.text[v];
    var d := Created(b, r, t[..n]);
    assert Listed(b, o, 0);
    CreatedOk(b, r, t[..n]);
    assert Contents(d)[o] == Bytes(d, o) == Bytes(b, o);
    RetoldBytes(d, o, 0, t[n..]);
    var after := Cat(d.ropes[o][1..], d.text);
    assert d.ropes[o][..0] == [];
    assert [] + t + after == t + after;
    assert [] + t[n..] + after == (t + after)[n..];
  }

  // The last n bytes of the last view of an owner go to a new view.
  lemma SplitLastOk(b: Books, o: object, v: View, r: View, n: nat, c: Books)
    requires BooksOk(b) && o in b.ropes && !(o is View) && b.ropes[o] != [] && r !in b.owner && r !in b.ropes
    requires v == b.ropes[o][|b.ropes[o]| - 1] && v in b.text && n <= |b.text[v]|
    requires c == Created(Retold(b, v, b.text[v][..|b.text[v]| - n]), r, b.text[v][|b.text[v]| - n..])
    ensures BooksOk(c) && Loose(c, r) && n <= |Bytes(b, o)| && r in c.text
    ensures c.text[r] == Bytes(b, o)[|Bytes(b, o)| - n..]
    ensures Contents(c) == Contents(b)[o := Bytes(b, o)[..|Bytes(b, o)| - n]][r := c.text[r]]
  {
    var m := |b.ropes[o]| - 1;
    var t := b.text[v];
    var k := |t| - n;
    assert Listed(b, o, m);
    RetoldBytes(b, o, m, t[..k]);
    var d := Retold(b, v, t[..k]);
    var before := Cat(b.ropes[o][..m], b.text);
    assert b.ropes[o][m + 1..] == [];
    assert before + t + [] == before + t;
    assert before + t[..k] + [] == (before + t)[..|before + t| - n];
    CreatedOk(d, r, t[k..]);
  }

  // The last view of an owner shows some more.
  lemma GrownLastOk(b: Books, o: object, s: seq<bv8>)
    requires BooksOk(b) && o in b.ropes && !(o is View) && b.ropes[o] != []
    requires b.ropes[o][|b.ropes[o]| - 1] in b.text
    ensures var v := b.ropes[o][|b.ropes[o]| - 1];
      var c := Retold(b, v, b.text[v] + s);
      BooksOk(c) && Contents(c) == Contents(b)[o := Bytes(b, o) + s]
  {
    var m := |b.ropes[o]| - 1;
    var v := b.ropes[o][m];
    RetoldBytes(b, o, m, b.text[v] + s);
    var before := Cat(b.ropes[o][..m], b.text);
    assert b.ropes[o][m + 1..] == [];
    assert before + (b.text[v] + s) + [] == before + b.text[v] + [] + s;
  }

  // A new view that showed nothing shows something.
  lemma FilledOk(b: Books, v: View, t: seq<bv8>)
    requires BooksOk(b) && v !in b.owner && v !in b.ropes
    ensures var c := Retold(Created(b, v, []), v, t);
      BooksOk(c) && Loose(c, v) && c.text[v] == t && Contents(c) == Contents(b)[v := t]
  {
    assert Retold(Created(b, v, []), v, t) == Created(b, v, t);
    CreatedOk(b, v, t);
  }

  // What others than d have stays, view by view.
  ghost predicate SameShown(b: Books, c: Books, v: View) {
    && v in b.owner && v in b.text && v in c.owner && v in c.text
    && c.owner[v] == b.owner[v] && c.text[v] == b.text[v]
  }

  ghost predicate Beside(b: Books, c: Books, d: object) {
    && (forall p :: p in b.ropes && p != d ==> p in c.ropes && c.ropes[p] == b.ropes[p])
    && (forall v {:trigger SameShown(b, c, v)} :: v in b.owner && v in b.text && b.owner[v] != d ==> SameShown(b, c, v))
  }

  lemma BesideNew(b: Books, c: Books, d: object, r: View, s: seq<bv8>)
    requires r !in b.owner && r !in b.ropes && Aside(Created(b, r, s), c, d, r)
    ensures Beside(b, c, d)
  {
    var x := Created(b, r, s);
    forall v | v in b.owner && v in b.text && b.owner[v] != d ensures SameShown(b, c, v) {
      assert v in x.owner && v in x.text;
      assert v in c.owner && v in c.text;
    }
  }

  lemma BesideTrans(b: Books, x: Books, c: Books, d: object)
    requires Beside(b, x, d) && Beside(x, c, d)
    ensures Beside(b, c, d)
  {
    forall v | v in b.owner && v in b.text && b.owner[v] != d ensures SameShown(b, c, v) {
      assert SameShown(b, x, v) && SameShown(x, c, v);
    }
  }

  // One more view of o, as it still is in x.
  lemma NextText(b: Books, x: Books, o: object, d: object, i: nat)
    requires BooksOk(b) && o in b.ropes && i < |b.ropes[o]| && Beside(b, x, d) && o != d
    ensures Shown(b.ropes[o], b.text) && o in x.ropes && x.ropes[o] == b.ropes[o] && b.ropes[o][i] in x.text
    ensures x.text[b.ropes[o][i]] == b.text[b.ropes[o][i]]
    ensures Cat(b.ropes[o][..i + 1], b.text) == Cat(b.ropes[o][..i], b.text) + x.text[b.ropes[o][i]]
  {
    OwnedIsShown(b, o);
    assert Listed(b, o, i);
    assert SameShown(b, x, b.ropes[o][i]);
    assert b.ropes[o][..i + 1][..i] == b.ropes[o][..i];
  }

  // The last view of an owner gives way to a new one that shows the same.
  ghost function Replaced(b: Books, o: object, v: View, r: View): Books
    requires v in b.text && o in b.ropes && o in b.base && b.ropes[o] != [] && v == b.ropes[o][|b.ropes[o]| - 1]
    requires r != v && o != v && o != r
  {
    Pushed(Dropped(Popped(Created(b, r, b.text[v]), o), v), o, r)
  }

  lemma ReplacedOk(b: Books, o: object, v: View, r: View)
    requires BooksOk(b) && o in b.ropes && b.ropes[o] != [] && v == b.ropes[o][|b.ropes[o]| - 1] && !(o is View)
    requires r !in b.owner && r !in b.ropes && v in b.text && r != v
    ensures var c := Replaced(b, o, v, r);
      && Loose(Dropped(Popped(Created(b, r, b.text[v]), o), v), r)
      && BooksOk(c) && Contents(c) == Contents(b)
      && c.ropes[o] == b.ropes[o][..|b.ropes[o]| - 1] + [r] && r in c.text && c.text[r] == b.text[v]
  {
    var x := Created(b, r, b.text[v]);
    CreatedOk(b, r, b.text[v]);
    var y := Popped(x, o);
    PoppedOk(x, o);
    var z := Dropped(y, v);
    assert Listed(b, o, |b.ropes[o]| - 1);
    OwnersAreNoViews(b, o, v);
    DroppedOk(y, v);
    assert Loose(z, r);
    PushedOk(z, o, r);
    assert Bytes(x, o) == Bytes(b, o) by { assert Contents(x)[o] == Contents(b)[o]; }
    assert Bytes(z, o) == Bytes(y, o) by { assert Contents(z)[o] == Contents(y)[o]; }
    ReplacedMap(Contents(b), o, v, r, Bytes(y, o), b.text[v]);
  }

  lemma ReplacedMap(m: map<object, seq<bv8>>, o: object, v: object, r: object, s: seq<bv8>, t: seq<bv8>)
    requires o in m && v !in m && r !in m && o != v && o != r && v != r && m[o] == s + t
    ensures (m[r := t][o := s][v := t] - {v} - {r})[o := s + t] == m
  {
  }

  // ----- how a rope gets longer -----------------------------------------------------------------

  ghost function Width(b: Books, o: object, i: int): nat
    requires o in b.ropes && 0 <= i < |b.ropes[o]|
  {
    if b.ropes[o][i] in b.text then |b.text[b.ropes[o][i]]| else 0
  }

  // How much the last view shows.
  ghost function LastWidth(b: Books, o: object): nat
    requires o in b.ropes
  {
    if b.ropes[o] == [] then 0 else Width(b, o, |b.ropes[o]| - 1)
  }

  // Some view, at most one more, and only the last of the old ones may show more than before,
  // if there is not one more.
  ghost predicate Grew(b: Books, c: Books, o: object) {
    && o in b.ropes && o in c.ropes && b.ropes[o] <= c.ropes[o] && 0 < |c.ropes[o]| <= |b.ropes[o]| + 1
    && (forall i {:trigger Width(c, o, i)} :: 0 <= i < |b.ropes[o]| ==>
         if i == |b.ropes[o]| - 1 && |c.ropes[o]| == |b.ropes[o]| then Width(c, o, i) >= Width(b, o, i)
         else Width(c, o, i) == Width(b, o, i))
  }

  lemma PushedGrew(b: Books, o: object, v: View)
    requires BooksOk(b) && o in b.ropes && Loose(b, v) && !(o is View)
    ensures Grew(b, Pushed(b, o, v), o)
  {
  }

  lemma MergedLastGrew(b: Books, o: object, v: View)
    requires BooksOk(b) && o in b.ropes && b.ropes[o] != [] && Loose(b, v) && !(o is View)
    ensures v in b.text && b.ropes[o][|b.ropes[o]| - 1] in b.text && Grew(b, MergedLast(b, o, v), o)
  {
    OwnedText(b);
    var n := |b.ropes[o]| - 1;
    assert Listed(b, o, n);
    var c := MergedLast(b, o, v);
    forall i | 0 <= i < |b.ropes[o]|
      ensures if i == n then Width(c, o, i) >= Width(b, o, i) else Width(c, o, i) == Width(b, o, i)
    {
      assert Listed(b, o, i);
    }
  }

  // From the old last view on, all views but the new last one show at least occ bytes.
  ghost predicate Packed(b: Books, c: Books, o: object, occ: nat) {
    && o in b.ropes && o in c.ropes && |b.ropes[o]| <= |c.ropes[o]|
    && (forall i {:trigger Width(c, o, i)} :: 0 <= i < |b.ropes[o]| - 1 ==>
      c.ropes[o][i] == b.ropes[o][i] && Width(c, o, i) == Width(b, o, i))
    && (forall i {:trigger Width(c, o, i)} :: 0 <= i && |b.ropes[o]| - 1 <= i < |c.ropes[o]| - 1 ==>
      Width(c, o, i) >= occ)
  }

  lemma PackedTrans(b: Books, x: Books, c: Books, o: object, occ: nat)
    requires Packed(b, x, o, occ) && Packed(x, c, o, occ)
    ensures Packed(b, c, o, occ)
  {
    forall i | 0 <= i < |b.ropes[o]| - 1 ensures c.ropes[o][i] == b.ropes[o][i] && Width(c, o, i) == Width(b, o, i) {
      assert Width(x, o, i) == Width(b, o, i) && Width(c, o, i) == Width(x, o, i);
    }
    forall i | 0 <= i && |b.ropes[o]| - 1 <= i < |c.ropes[o]| - 1 ensures Width(c, o, i) >= occ {
      if i < |x.ropes[o]| - 1 {
        assert Width(x, o, i) >= occ && Width(c, o, i) == Width(x, o, i);
      }
    }
  }

  lemma PackedForLess(b: Books, c: Books, o: object, occ: nat, less: nat)
    requires Packed(b, c, o, occ) && less <= occ
    ensures Packed(b, c, o, less)
  {
    forall i | 0 <= i < |b.ropes[o]| - 1 ensures c.ropes[o][i] == b.ropes[o][i] && Width(c, o, i) == Width(b, o, i) {
      assert Width(c, o, i) == Width(b, o, i);
    }
    forall i {:trigger Width(c, o, i)} | 0 <= i && |b.ropes[o]| - 1 <= i < |c.ropes[o]| - 1
      ensures Width(c, o, i) >= less
    {
      assert Width(c, o, i) >= occ;
    }
  }

  lemma PackedByGrowth(b: Books, c: Books, o: object, occ: nat)
    requires Grew(b, c, o) && (b.ropes[o] == [] || LastWidth(b, o) >= occ)
    ensures Packed(b, c, o, occ)
  {
    var n := |b.ropes[o]|;
    forall i | 0 <= i < n - 1 ensures c.ropes[o][i] == b.ropes[o][i] && Width(c, o, i) == Width(b, o, i) {
      assert Width(c, o, i) == Width(b, o, i);
    }
    forall i {:trigger Width(c, o, i)} | 0 <= i && n - 1 <= i < |c.ropes[o]| - 1 ensures Width(c, o, i) >= occ {
      assert i == n - 1 && Width(c, o, i) == Width(b, o, i);
    }
  }

  lemma ReplacedPacked(b: Books, o: object, v: View, r: View, occ: nat)
    requires BooksOk(b) && o in b.ropes && b.ropes[o] != [] && v == b.ropes[o][|b.ropes[o]| - 1] && !(o is View)
    requires r !in b.owner && r !in b.ropes && v in b.text && r != v
    ensures Packed(b, Replaced(b, o, v, r), o, occ) && Beside(b, Replaced(b, o, v, r), o)
  {
    var c := Replaced(b, o, v, r);
    ReplacedOk(b, o, v, r);
    assert Listed(b, o, |b.ropes[o]| - 1);
    OwnersAreNoViews(b, o, v);
    forall i | 0 <= i < |b.ropes[o]| - 1 ensures c.ropes[o][i] == b.ropes[o][i] && Width(c, o, i) == Width(b, o, i) {
      assert Listed(b, o, i);
    }
  }

  lemma GrownPacked(b: Books, o: object, s: seq<bv8>, occ: nat)
    requires BooksOk(b) && o in b.ropes && b.ropes[o] != [] && b.ropes[o][|b.ropes[o]| - 1] in b.text
    ensures var v := b.ropes[o][|b.ropes[o]| - 1];
      var c := Retold(b, v, b.text[v] + s);
      Packed(b, c, o, occ) && Beside(b, c, o) && c.ropes == b.ropes && LastWidth(c, o) == LastWidth(b, o) + |s|
  {
    var n := |b.ropes[o]| - 1;
    var v := b.ropes[o][n];
    var c := Retold(b, v, b.text[v] + s);
    assert Listed(b, o, n);
    forall i | 0 <= i < n ensures Width(c, o, i) == Width(b, o, i) {
      assert Listed(b, o, i);
    }
  }

  lemma PackedSame(b: Books, o: object, occ: nat)
    requires BooksOk(b) && o in b.ropes
    ensures Packed(b, b, o, occ) && Beside(b, b, o)
  {
    OwnedText(b);
  }

  lemma GrewNew(b: Books, c: Books, d: object, r: View, s: seq<bv8>)
    requires BooksOk(b) && d in b.ropes && d != r && r !in b.owner && r !in b.ropes && Grew(Created(b, r, s), c, d)
    ensures Grew(b, c, d)
  {
    var x := Created(b, r, s);
    forall i | 0 <= i < |b.ropes[d]|
      ensures if i == |b.ropes[d]| - 1 && |c.ropes[d]| == |b.ropes[d]| then Width(c, d, i) >= Width(b, d, i)
              else Width(c, d, i) == Width(b, d, i)
    {
      assert Listed(b, d, i) && Width(x, d, i) == Width(b, d, i);
    }
  }

  // ----- where a view is in the bytes ---------------------------------------------------------------

  // How many bytes there are before view number i.
  ghost function Before(b: Books, o: object, i: nat): nat
    requires BooksOk(b) && o in b.ropes && i <= |b.ropes[o]|
  {
    OwnedIsShown(b, o);
    |Cat(b.ropes[o][..i], b.text)|
  }

  lemma NthBytes(b: Books, o: object, i: nat)
    requires BooksOk(b) && o in b.ropes && i <= |b.ropes[o]|
    ensures Before(b, o, 0) == 0 && Before(b, o, |b.ropes[o]|) == |Bytes(b, o)| && Before(b, o, i) <= |Bytes(b, o)|
    ensures i < |b.ropes[o]| ==>
      var v := b.ropes[o][i]; var start := Before(b, o, i);
      && v in b.text && Before(b, o, i + 1) == start + |b.text[v]| <= |Bytes(b, o)|
      && Bytes(b, o)[start..start + |b.text[v]|] == b.text[v]
  {
    var vs := b.ropes[o];
    OwnedIsShown(b, o);
    assert vs[..|vs|] == vs && vs[..0] == [];
    CatAppend(vs[..i], vs[i..], b.text);
    assert vs == vs[..i] + vs[i..];
    if i < |vs| {
      CatAround(vs, i, b.text);
      assert vs[..i + 1][..i] == vs[..i];
      var head, v, rest := Cat(vs[..i], b.text), b.text[vs[i]], Cat(vs[i + 1..], b.text);
      assert (head + v + rest)[|head|..|head| + |v|] == v;
    }
  }

  // View number i of o is full, or ends with o as it was, or with one of the first n views of p
  // after that.
  ghost predicate CutAt(b: Books, c: Books, o: object, p: object, n: nat, i: nat)
    requires BooksOk(b) && BooksOk(c) && o in b.ropes && o in c.ropes && p in b.ropes
    requires n <= |b.ropes[p]| && i < |c.ropes[o]|
  {
    || Width(c, o, i) >= CHUNK_SIZE
    || exists k :: 0 <= k <= n && Before(c, o, i + 1) == |Bytes(b, o)| + Before(b, p, k)
  }

  // So it is with all views from the old last one on, but the new last one.
  ghost predicate Cuts(b: Books, c: Books, o: object, p: object, n: nat)
    requires BooksOk(b) && BooksOk(c) && o in b.ropes && o in c.ropes && p in b.ropes && n <= |b.ropes[p]|
  {
    forall i {:trigger CutAt(b, c, o, p, n, i)} :: 0 <= i && |b.ropes[o]| - 1 <= i < |c.ropes[o]| - 1 ==>
      CutAt(b, c, o, p, n, i)
  }

  lemma {:induction false} SameBefore(b: Books, c: Books, o: object, m: nat)
    requires BooksOk(b) && BooksOk(c) && o in b.ropes && o in c.ropes && m <= |b.ropes[o]| && m <= |c.ropes[o]|
    requires forall j {:trigger Width(c, o, j)} :: 0 <= j < m ==> Width(c, o, j) == Width(b, o, j)
    ensures Before(c, o, m) == Before(b, o, m)
  {
    NthBytes(b, o, 0);
    NthBytes(c, o, 0);
    if m > 0 {
      SameBefore(b, c, o, m - 1);
      NthBytes(b, o, m - 1);
      NthBytes(c, o, m - 1);
      assert Width(c, o, m - 1) == Width(b, o, m - 1);
    }
  }

  // A step that fills the last view before it adds one, or adds one and leaves the last as it is.
  lemma CutsNext(b: Books, x: Books, c: Books, o: object, p: object, n: nat)
    requires BooksOk(b) && BooksOk(x) && BooksOk(c) && o in b.ropes && o in x.ropes && o in c.ropes && p in b.ropes
    requires n < |b.ropes[p]| && Cuts(b, x, o, p, n) && |b.ropes[o]| <= |x.ropes[o]|
    requires |Bytes(x, o)| == |Bytes(b, o)| + Before(b, p, n)
    requires Packed(x, c, o, CHUNK_SIZE) || Grew(x, c, o)
    ensures Cuts(b, c, o, p, n + 1)
  {
    forall i {:trigger CutAt(b, c, o, p, n + 1, i)} | 0 <= i && |b.ropes[o]| - 1 <= i < |c.ropes[o]| - 1
      ensures CutAt(b, c, o, p, n + 1, i)
    {
      if i < |x.ropes[o]| - 1 {
        assert CutAt(b, x, o, p, n, i);
        assert Width(c, o, i) == Width(x, o, i);
        SameBefore(x, c, o, i + 1);
      } else if !Packed(x, c, o, CHUNK_SIZE) {
        assert Width(c, o, i) == Width(x, o, i);
        SameBefore(x, c, o, i + 1);
        NthBytes(x, o, i);
      } else {
        assert Width(c, o, i) >= CHUNK_SIZE;
      }
    }
  }

  lemma PartOfPart(data: seq<bv8>, at: nat, n: nat, from: nat, to: nat)
    requires from <= to <= n && at + n <= |data|
    ensures data[at..at + n][from..to] == data[at + from..at + from + (to - from)]
  {
    assert data[at + from..at + from + (to - from)] == data[at + from..at + to];
    var a, b := data[at..at + n][from..to], data[at + from..at + to];
    forall i | 0 <= i < |a| ensures a[i] == b[i] {
      assert a[i] == data[at..at + n][from + i] == data[at + (from + i)];
      assert b[i] == data[at + from + i];
    }
    assert |a| == |b|;
  }

  // Bytes number k to m are in view number i.
  lemma PartBytes(b: Books, o: object, i: nat, from: nat, to: nat, k: nat) returns (m: nat)
    requires BooksOk(b) && o in b.ropes && i < |b.ropes[o]| && b.ropes[o][i] in b.text
    requires from <= to <= |b.text[b.ropes[o][i]]| && k == Before(b, o, i) + from
    ensures m == k + (to - from)
    ensures k <= m <= |Bytes(b, o)| && b.text[b.ropes[o][i]][from..to] == Bytes(b, o)[k..m]
  {
    m := k + (to - from);
    NthBytes(b, o, i);
    PartOfPart(Bytes(b, o), Before(b, o, i), |b.text[b.ropes[o][i]]|, from, to);
  }

  lemma BesideBytes(b: Books, c: Books, d: object, o: object, i: nat)
    requires BooksOk(b) && BooksOk(c) && Beside(b, c, d) && o in b.ropes && o != d && i <= |b.ropes[o]|
    ensures o in c.ropes && c.ropes[o] == b.ropes[o] && Bytes(c, o) == Bytes(b, o) && Before(c, o, i) == Before(b, o, i)
    ensures i < |b.ropes[o]| ==> Width(c, o, i) == Width(b, o, i)
  {
    OwnedIsShown(b, o);
    OwnedIsShown(c, o);
    forall v | v in b.ropes[o] ensures v in c.text && c.text[v] == b.text[v] {
      var j :| 0 <= j < |b.ropes[o]| && b.ropes[o][j] == v;
      assert Listed(b, o, j) && SameShown(b, c, v);
    }
    CatSame(b.ropes[o], b.text, c.text);
    CatSame(b.ropes[o][..i], b.text, c.text);
    if i < |b.ropes[o]| {
      assert b.ropes[o][i] in b.ropes[o];
    }
  }
}
