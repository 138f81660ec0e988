// Byte ropes that share chunks of memory (src/data.hpp, src/data.cpp).
module DataRope {
  import opened DataBooks

  type Holders = map<Chunk, set<View>>

  // ----- the memory ----------------------------------------------------------------------

  // Every rope, view and chunk there is. The source keeps no such record: it is what its
  // reference counts are about.
  datatype World = World(books: Books, holders: Holders, datas: set<Data>, shareds: set<SharedData>)

  // A view shows its part of a chunk that counts it.
  ghost predicate ViewOk(b: Books, h: Holders, v: View)
    reads v, h.Keys
  {
    && v in b.owner && v in b.text && v.chunk in h && v in h[v.chunk]
    && v.offset + v.length <= CHUNK_SIZE == |v.chunk.data|
    && b.text[v] == v.chunk.data[v.offset..v.offset + v.length]
    && (b.owner[v] == v ==> Loose(b, v) && v.prev == null && v.next == null)
  }

  ghost predicate ViewsOk(w: World)
    reads w.books.owner.Keys, w.holders.Keys
  {
    forall v {:trigger ViewOk(w.books, w.holders, v)} :: v in w.books.owner ==> ViewOk(w.books, w.holders, v)
  }

  // A chunk counts the views that show parts of it.
  ghost predicate ChunkOk(b: Books, h: Holders, c: Chunk)
    requires c in h
    reads c, b.owner.Keys
  {
    && c.retain_count == |h[c]| > 0
    && forall v <- h[c] :: v in b.owner && v.chunk == c
  }

  ghost predicate ChunksOk(w: World)
    reads w.books.owner.Keys, w.holders.Keys
  {
    forall c {:trigger ChunkOk(w.books, w.holders, c)} :: c in w.holders ==> ChunkOk(w.books, w.holders, c)
  }

  ghost predicate LinkOk(vs: seq<View>, i: int)
    requires 0 <= i < |vs|
    reads vs[i]
  {
    vs[i].prev == (if i == 0 then null else vs[i - 1]) && vs[i].next == (if i == |vs| - 1 then null else vs[i + 1])
  }

  // The list of a rope is linked as the books have it.
  ghost predicate Linked(d: Data, vs: seq<View>)
    reads d`head, d`tail, vs
  {
    && d.head == (if vs == [] then null else vs[0])
    && d.tail == (if vs == [] then null else vs[|vs| - 1])
    && (forall i {:trigger LinkOk(vs, i)} :: 0 <= i < |vs| ==> LinkOk(vs, i))
  }

  ghost predicate ListOk(b: Books, d: Data)
    reads d`head, d`tail, b.owner.Keys
  {
    d in b.ropes && (forall v <- b.ropes[d] :: v in b.owner) && Linked(d, b.ropes[d])
  }

  ghost predicate NextOk(vs: seq<View>, i: int)
    requires 0 <= i < |vs|
    reads vs[i]
  {
    vs[i].next == (if i == |vs| - 1 then null else vs[i + 1])
  }

  ghost predicate Chained(s: SharedData, vs: seq<View>)
    reads s, vs
  {
    && s.views == (if vs == [] then null else vs[0])
    && (forall i {:trigger NextOk(vs, i)} :: 0 <= i < |vs| ==> NextOk(vs, i))
  }

  ghost predicate SharedOk(b: Books, s: SharedData)
    reads s, b.owner.Keys
  {
    s in b.ropes && (forall v <- b.ropes[s] :: v in b.owner) && Chained(s, b.ropes[s])
  }

  ghost predicate ListsOk(w: World)
    reads w.datas`head, w.datas`tail, w.shareds, w.books.owner.Keys
  {
    && (forall d {:trigger ListOk(w.books, d)} :: d in w.datas ==> ListOk(w.books, d))
    && (forall s {:trigger SharedOk(w.books, s)} :: s in w.shareds ==> SharedOk(w.books, s))
  }

  // Views, chunks and lists are as the books say.
  ghost predicate Wired(w: World)
    reads w.books.owner.Keys, w.holders.Keys, w.datas`head, w.datas`tail, w.shareds
  {
    BooksOk(w.books) && ViewsOk(w) && ChunksOk(w) && ListsOk(w)
  }

  // ----- what stays ------------------------------------------------------------------------

  twostate predicate SamePart(v: View)
    reads v
  {
    v.chunk == old(v.chunk) && v.offset == old(v.offset) && v.length == old(v.length)
  }

  twostate predicate SameLinks(v: View)
    reads v
  {
    v.prev == old(v.prev) && v.next == old(v.next)
  }

  twostate predicate SameCount(c: Chunk)
    reads c
  {
    c.retain_count == old(c.retain_count)
  }

  twostate predicate SameData(c: Chunk)
    reads c
  {
    c.data == old(c.data)
  }

  // What a step changes: the parts some views show, the links of some views, the count of
  // one chunk, the bytes of one chunk, and the ends of the lists of some owners.
  datatype Effect = Effect(parts: set<View>, links: set<View>, counted: Chunk?, written: Chunk?, lists: set<object>)

  twostate predicate Only(w: World, new e: Effect)
    reads *
  {
    && (forall v {:trigger SamePart(v)} :: v in w.books.owner && v !in e.parts ==> SamePart(v))
    && (forall v {:trigger SameLinks(v)} :: v in w.books.owner && v !in e.links ==> SameLinks(v))
    && (forall c {:trigger SameCount(c)} :: c in w.holders && c != e.counted ==> SameCount(c))
    && (forall c {:trigger SameData(c)} :: c in w.holders && c != e.written ==> SameData(c))
    && (forall d {:trigger d.head} {:trigger d.tail} :: d in w.datas && d !in e.lists ==>
      d.head == old(d.head) && d.tail == old(d.tail))
    && (forall s {:trigger s.views} :: s in w.shareds && s !in e.lists ==> s.views == old(s.views))
  }

  twostate lemma ViewsStay(w: World, new u: World, new e: Effect, new touched: set<View>)
    requires old(ViewsOk(w)) && KeptBut(w.books, u.books, touched) && Only(w, e) && e.parts <= touched
    requires forall v :: v in e.links && v in w.books.owner && w.books.owner[v] == v ==> v in touched
    requires forall c :: c in w.holders && c == e.written ==> w.holders[c] <= touched
    requires forall c :: c in w.holders ==>
      w.holders[c] <= touched || (c in u.holders && w.holders[c] - touched <= u.holders[c])
    requires forall v :: v in touched && v in u.books.owner ==> ViewOk(u.books, u.holders, v)
    ensures ViewsOk(u)
  {
    forall v | v in u.books.owner ensures ViewOk(u.books, u.holders, v) {
      if v !in touched {
        assert Kept(w.books, u.books, v) && SamePart(v) && old(ViewOk(w.books, w.holders, v));
        assert v.chunk != e.written ==> SameData(v.chunk);
        assert v in w.holders[v.chunk] - touched;
        assert v in e.links || SameLinks(v);
      }
    }
  }

  twostate lemma ChunksStay(w: World, new u: World, new e: Effect)
    requires old(ChunksOk(w)) && Only(w, e)
    requires forall v :: v in e.parts && v in w.books.owner ==> v.chunk == old(v.chunk)
    requires forall c :: c in u.holders && c != e.counted ==> c in w.holders && u.holders[c] == w.holders[c]
    requires forall v :: v in w.books.owner && v !in u.books.owner ==>
      old(v.chunk) == e.counted && (old(v.chunk) in u.holders ==> v !in u.holders[old(v.chunk)])
    requires e.counted != null && e.counted in u.holders ==> e.counted.retain_count == |u.holders[e.counted]| > 0
    requires e.counted != null && e.counted in u.holders ==> forall v :: v in u.holders[e.counted] ==>
      (v in u.books.owner && v.chunk == e.counted) || (e.counted in w.holders && v in w.holders[e.counted])
    ensures ChunksOk(u)
  {
    forall c | c in u.holders ensures ChunkOk(u.books, u.holders, c) {
      if c in w.holders {
        assert old(ChunkOk(w.books, w.holders, c)) && (c != e.counted ==> SameCount(c));
        forall v | v in u.holders[c] ensures v in u.books.owner && v.chunk == c {
          assert v in w.holders[c] ==> v in e.parts || SamePart(v);
        }
      }
    }
  }

  twostate lemma ListsStay(w: World, new u: World, new e: Effect, new v: View)
    requires BooksOk(w.books) && BooksOk(u.books) && old(ListsOk(w)) && u.datas == w.datas && u.shareds == w.shareds
    requires Only(w, e)
    requires forall p :: p in w.books.ropes && p !in e.lists && p != v ==>
      p in u.books.ropes && u.books.ropes[p] == w.books.ropes[p]
    requires forall t :: t in e.links && t in w.books.owner ==> w.books.owner[t] in e.lists || w.books.owner[t] == v
    requires forall d <- w.datas :: d in e.lists ==> ListOk(u.books, d)
    requires forall s <- w.shareds :: s in e.lists ==> SharedOk(u.books, s)
    ensures ListsOk(u)
  {
    forall d | d in u.datas ensures ListOk(u.books, d) {
      if d !in e.lists {
        assert old(ListOk(w.books, d));
        RopeIsOwned(u.books, d);
        var vs := w.books.ropes[d];
        forall i | 0 <= i < |vs| ensures LinkOk(vs, i) {
          assert Listed(w.books, d, i) && old(LinkOk(vs, i)) && SameLinks(vs[i]);
        }
      }
    }
    forall s | s in u.shareds ensures SharedOk(u.books, s) {
      if s !in e.lists {
        assert old(SharedOk(w.books, s));
        RopeIsOwned(u.books, s);
        var vs := w.books.ropes[s];
        forall i | 0 <= i < |vs| ensures NextOk(vs, i) {
          assert Listed(w.books, s, i) && old(NextOk(vs, i)) && SameLinks(vs[i]);
        }
      }
    }
  }

  // ----- views -----------------------------------------------------------------------------

  ghost function Held(h: Holders, c: Chunk, v: View): Holders {
    h[c := (if c in h then h[c] else {}) + {v}]
  }

  // A chunk that nobody holds is gone.
  ghost function Released(h: Holders, c: Chunk, v: View): Holders
    requires c in h
  {
    if h[c] == {v} then h - {c} else h[c := h[c] - {v}]
  }

  ghost function MadeView(w: World, v: View, chunk: Chunk, t: seq<bv8>): World {
    w.(books := Created(w.books, v, t), holders := Held(w.holders, chunk, v))
  }

  ghost function DroppedView(w: World, v: View, chunk: Chunk): World
    requires chunk in w.holders
  {
    w.(books := Dropped(w.books, v), holders := Released(w.holders, chunk, v))
  }

  twostate lemma MadeViewsAreOk(w: World, new v: View, new t: seq<bv8>)
    requires BooksOk(w.books) && old(ViewsOk(w)) && v !in w.books.owner && Only(w, Effect({}, {}, v.chunk, null, {}))
    requires v.prev == null && v.next == null && v.offset + v.length <= CHUNK_SIZE == |v.chunk.data|
    requires t == v.chunk.data[v.offset..v.offset + v.length]
    ensures ViewsOk(MadeView(w, v, v.chunk, t))
  {
    CreatedKeeps(w.books, v, t);
    ViewsStay(w, MadeView(w, v, v.chunk, t), Effect({}, {}, v.chunk, null, {}), {v});
  }

  twostate lemma MadeViewIsWired(w: World, new v: View, new t: seq<bv8>)
    requires old(Wired(w)) && v !in w.books.owner && v !in w.books.ropes && Only(w, Effect({}, {}, v.chunk, null, {}))
    requires v.prev == null && v.next == null && v.offset + v.length <= CHUNK_SIZE == |v.chunk.data|
    requires t == v.chunk.data[v.offset..v.offset + v.length]
    requires v.chunk.retain_count == |Held(w.holders, v.chunk, v)[v.chunk]|
    ensures Wired(MadeView(w, v, v.chunk, t))
  {
    var u := MadeView(w, v, v.chunk, t);
    var e := Effect({}, {}, v.chunk, null, {});
    assert BooksOk(u.books) by {
      CreatedOk(w.books, v, t);
    }
    assert ViewsOk(u) by {
      MadeViewsAreOk(w, v, t);
    }
    assert ChunksOk(u) by {
      ChunksStay(w, u, e);
    }
    assert ListsOk(u) by {
      ListsStay(w, u, e, v);
    }
  }

  // new View(chunk, offset, length)
  method MakeView(ghost w: World, chunk: Chunk, offset: nat, length: nat) returns (v: View, ghost u: World)
    requires Wired(w) && offset + length <= CHUNK_SIZE == |chunk.data|
    requires chunk !in w.holders ==> chunk.retain_count == 0
    modifies chunk`retain_count
    ensures Wired(u) && fresh(v)
    ensures v.chunk == chunk && v.offset == offset && v.length == length
    ensures u == MadeView(w, v, chunk, chunk.data[offset..offset + length])
  {
    v := new View(chunk, offset, length);
    chunk.retain_count := chunk.retain_count + 1;
    ghost var t := chunk.data[offset..offset + length];
    u := MadeView(w, v, chunk, t);
    assert chunk in w.holders ==> old(ChunkOk(w.books, w.holders, chunk));
    MadeViewIsWired(w, v, t);
  }

  twostate lemma DroppedViewIsWired(w: World, new v: View)
    requires old(Wired(w)) && Loose(w.books, v) && v.chunk in w.holders && Only(w, Effect({}, {}, v.chunk, null, {}))
    requires v.chunk.retain_count == |w.holders[v.chunk]| - 1
    ensures Wired(DroppedView(w, v, v.chunk))
  {
    var u := DroppedView(w, v, v.chunk);
    var e := Effect({}, {}, v.chunk, null, {});
    assert old(ViewOk(w.books, w.holders, v)) && SamePart(v) && old(ChunkOk(w.books, w.holders, v.chunk));
    assert BooksOk(u.books) by {
      DroppedOk(w.books, v);
    }
    assert ViewsOk(u) by {
      DroppedKeeps(w.books, v);
      ViewsStay(w, u, e, {v});
    }
    assert ChunksOk(u) by {
      ChunksStay(w, u, e);
    }
    assert ListsOk(u) by {
      ListsStay(w, u, e, v);
    }
  }

  // delete view
  method DeleteView(ghost w: World, v: View) returns (ghost u: World)
    requires Wired(w) && Loose(w.books, v)
    modifies v.chunk`retain_count
    ensures v.chunk in w.holders && Wired(u)
    ensures u == DroppedView(w, v, v.chunk) && (v.chunk.retain_count == 0 <==> v.chunk !in u.holders)
  {
    assert ViewOk(w.books, w.holders, v) && ChunkOk(w.books, w.holders, v.chunk);
    v.chunk.retain_count := v.chunk.retain_count - 1;
    u := DroppedView(w, v, v.chunk);
    assert |w.holders[v.chunk] - {v}| == |w.holders[v.chunk]| - 1;
    DroppedViewIsWired(w, v);
  }

  // A view at work on.
  datatype Part = Part(world: World, view: View)

  ghost function ResizedView(w: World, v: View, t: seq<bv8>): World {
    w.(books := Retold(w.books, v, t))
  }

  // A view shows another part of its chunk, of which it may write the bytes if no other
  // view shows any.
  twostate lemma ResizedViewIsWired(p: Part, new t: seq<bv8>, new written: Chunk?)
    requires old(Wired(p.world)) && p.view in p.world.books.owner
    requires Only(p.world, Effect({p.view}, {}, null, written, {})) && p.view.chunk == old(p.view.chunk)
    requires forall c :: c in p.world.holders && c == written ==> p.world.holders[c] == {p.view}
    requires p.view.offset + p.view.length <= CHUNK_SIZE == |p.view.chunk.data|
    requires t == p.view.chunk.data[p.view.offset..p.view.offset + p.view.length]
    ensures Wired(ResizedView(p.world, p.view, t))
  {
    var w, v := p.world, p.view;
    var u := ResizedView(w, v, t);
    var e := Effect({v}, {}, null, written, {});
    assert BooksOk(u.books) by {
      RetoldOk(w.books, v, t);
    }
    assert old(ViewOk(w.books, w.holders, v)) && SameLinks(v);
    assert ViewsOk(u) by {
      RetoldKeeps(w.books, v, t);
      ViewsStay(w, u, e, {v});
    }
    assert ChunksOk(u) by {
      ChunksStay(w, u, e);
    }
    assert ListsOk(u) by {
      ListsStay(w, u, e, v);
    }
  }

  function Min(a: int, b: int): int {
    if a < b then a else b
  }

  function Overwrite(s: seq<bv8>, at: nat, t: seq<bv8>): seq<bv8>
    requires at + |t| <= |s|
  {
    s[..at] + t + s[at + |t|..]
  }

  // View::push
  method GrowView(ghost w: World, v: View, bytes: seq<bv8>) returns (room: nat, ghost u: World)
    requires Wired(w) && v in w.books.owner && v.chunk.retain_count == 1
    modifies v`length, v.chunk`data
    ensures Wired(u) && v in w.books.text && room <= |bytes|
    ensures old(v.offset + v.length) <= CHUNK_SIZE && room == Min(CHUNK_SIZE - old(v.offset + v.length), |bytes|)
    ensures u == ResizedView(w, v, w.books.text[v] + bytes[..room])
    ensures v.length == old(v.length) + room
  {
    assert ViewOk(w.books, w.holders, v) && ChunkOk(w.books, w.holders, v.chunk);
    OnlyHolder(w.holders[v.chunk], v);
    var tail := v.offset + v.length;
    room := Min(CHUNK_SIZE - tail, |bytes|);
    if room > 0 {
      v.chunk.data := Overwrite(v.chunk.data, tail, bytes[..room]);
      v.length := v.length + room;
    }
    ghost var t := w.books.text[v] + bytes[..room];
    u := ResizedView(w, v, t);
    assert t == v.chunk.data[v.offset..v.offset + v.length];
    ResizedViewIsWired(Part(w, v), t, v.chunk);
  }

  lemma OnlyHolder(s: set<View>, v: View)
    requires |s| == 1 && v in s
    ensures s == {v}
  {
    assert |s - {v}| == 0;
  }

  // offset and length of a view set anew
  method Resize(ghost w: World, v: View, offset: nat, length: nat) returns (ghost u: World)
    requires Wired(w) && v in w.books.owner && offset + length <= CHUNK_SIZE
    modifies v`offset, v`length
    ensures Wired(u) && |v.chunk.data| == CHUNK_SIZE && v.offset == offset && v.length == length
    ensures u == ResizedView(w, v, v.chunk.data[offset..offset + length])
  {
    assert ViewOk(w.books, w.holders, v);
    v.offset, v.length := offset, length;
    u := ResizedView(w, v, v.chunk.data[offset..offset + length]);
    ResizedViewIsWired(Part(w, v), v.chunk.data[offset..offset + length], null);
  }

  // View::pop
  method PopOff(ghost w: World, v: View, n: nat) returns (r: View, ghost u: World)
    requires Wired(w) && v in w.books.owner && n <= v.length
    modifies v`offset, v`length, v.chunk`retain_count
    ensures Wired(u) && fresh(r) && v in w.books.text
    ensures n <= |w.books.text[v]|
    ensures var t := w.books.text[v];
      u == MadeView(ResizedView(w, v, t[..|t| - n]), r, v.chunk, t[|t| - n..])
    ensures v.length == old(v.length) - n && v.offset == old(v.offset)
  {
    assert ViewOk(w.books, w.holders, v);
    ghost var t := w.books.text[v];
    u := Resize(w, v, v.offset, v.length - n);
    assert t[..|t| - n] == v.chunk.data[v.offset..v.offset + v.length];
    r, u := MakeView(u, v.chunk, v.offset + v.length, n);
    assert t[|t| - n..] == v.chunk.data[v.offset + v.length..v.offset + v.length + n];
  }

  // View::shift
  method ShiftOff(ghost w: World, v: View, n: nat) returns (r: View, ghost u: World)
    requires Wired(w) && v in w.books.owner && n <= v.length
    modifies v`offset, v`length, v.chunk`retain_count
    ensures Wired(u) && fresh(r) && v in w.books.text
    ensures n <= |w.books.text[v]|
    ensures var t := w.books.text[v];
      u == ResizedView(MadeView(w, r, v.chunk, t[..n]), v, t[n..])
    ensures v.length == old(v.length) - n
  {
    assert ViewOk(w.books, w.holders, v);
    ghost var t, from, data := w.books.text[v], v.offset, v.chunk.data;
    assert t == data[from..from + v.length];
    r, u := MakeView(w, v.chunk, v.offset, n);
    assert t[..n] == data[from..from + n];
    assert t[n..] == data[from + n..from + |t|];
    u := Resize(u, v, v.offset + n, v.length - n);
    assert v.offset == from + n && v.offset + v.length == from + |t| && v.chunk.data == data;
  }

  // View::clone
  method CloneView(ghost w: World, v: View) returns (r: View, ghost u: World)
    requires Wired(w) && v in w.books.owner
    ensures Wired(u) && fresh(r) && fresh(r.chunk) && v in w.books.text
    ensures u == MadeView(w, r, r.chunk, w.books.text[v])
    ensures r.offset == 0 && r.length == v.length && r.chunk.retain_count == 1
  {
    assert ViewOk(w.books, w.holders, v);
    var chunk := new Chunk();
    chunk.data := Overwrite(chunk.data, 0, v.chunk.data[v.offset..v.offset + v.length]);
    r, u := MakeView(w, chunk, 0, v.length);
    assert w.books.text[v] == chunk.data[0..v.length];
    assert ChunkOk(u.books, u.holders, chunk);
  }

  // ----- lists -----------------------------------------------------------------------------

  // A list at work on.
  datatype Focus = Focus(world: World, list: Data)

  ghost function PushedView(w: World, d: Data, v: View): World
    requires d in w.books.ropes && d in w.books.base
  {
    w.(books := Pushed(w.books, d, v))
  }

  twostate lemma PushedList(f: Focus, new v: View)
    requires BooksOk(f.world.books) && old(ListOk(f.world.books, f.list)) && Loose(f.world.books, v)
    requires var vs := f.world.books.ropes[f.list];
      && f.list.head == (if vs == [] then v else old(f.list.head)) && f.list.tail == v
      && v.prev == old(f.list.tail) && v.next == null
      && (forall x {:trigger SameLinks(x)} :: x in f.world.books.owner && x != v && x != old(f.list.tail) ==>
        SameLinks(x))
      && (vs != [] ==> vs[|vs| - 1].prev == old(vs[|vs| - 1].prev) && vs[|vs| - 1].next == v)
    ensures Linked(f.list, f.world.books.ropes[f.list] + [v])
  {
    var vs := f.world.books.ropes[f.list];
    var n := |vs| - 1;
    forall i | 0 <= i < |vs| + 1 ensures LinkOk(vs + [v], i) {
      if i <= n {
        assert old(LinkOk(vs, i)) && Listed(f.world.books, f.list, i) && Listed(f.world.books, f.list, n);
        assert i < n ==> SameLinks(vs[i]);
      }
    }
  }

  ghost function One(v: View?): set<View> {
    if v == null then {} else {v}
  }

  twostate lemma PushedViewIsWired(f: Focus, new v: View)
    requires old(Wired(f.world)) && Loose(f.world.books, v) && f.list in f.world.datas
    requires Only(f.world, Effect({}, One(old(f.list.tail)) + {v}, null, null, {f.list}))
    requires f.list in f.world.books.ropes && f.list in f.world.books.base
    requires f.list.head == (if old(f.list.tail) == null then v else old(f.list.head)) && f.list.tail == v
    requires v.prev == old(f.list.tail) && v.next == null
    requires old(f.list.tail) != null ==> old(f.list.tail).prev == old(f.list.tail.prev) && old(f.list.tail).next == v
    ensures Wired(PushedView(f.world, f.list, v))
  {
    var w, d := f.world, f.list;
    var u := PushedView(w, d, v);
    var vs := w.books.ropes[d];
    var e := Effect({}, One(old(d.tail)) + {v}, null, null, {d});
    assert old(ListOk(w.books, d)) && old(ViewOk(w.books, w.holders, v));
    assert vs != [] ==> Listed(w.books, d, |vs| - 1);
    assert BooksOk(u.books) by {
      PushedOk(w.books, d, v);
    }
    assert ViewsOk(u) by {
      PushedKeeps(w.books, d, v);
      assert SamePart(v) && SameData(v.chunk);
      ViewsStay(w, u, e, {v});
    }
    assert ChunksOk(u) by {
      ChunksStay(w, u, e);
    }
    assert ListsOk(u) by {
      PushedList(f, v);
      RopeIsOwned(u.books, d);
      ListsStay(w, u, e, v);
    }
  }

  ghost function PoppedView(w: World, d: Data): World
    requires d in w.books.ropes && d in w.books.base && w.books.ropes[d] != []
  {
    w.(books := Popped(w.books, d))
  }

  ghost function ShiftedView(w: World, d: Data): World
    requires d in w.books.ropes && d in w.books.base && w.books.ropes[d] != []
  {
    w.(books := Shifted(w.books, d))
  }

  ghost function UnshiftedView(w: World, d: Data, v: View): World
    requires d in w.books.ropes && d in w.books.base
  {
    w.(books := Unshifted(w.books, d, v))
  }

  // The last view has been taken off its list.
  twostate predicate TailOff(f: Focus, new v: View, new p: View?)
    reads *
  {
    && Only(f.world, Effect({}, One(p) + {v}, null, null, {f.list}))
    && f.list.head == (if p == null then null else old(f.list.head)) && f.list.tail == p
    && v.prev == null && v.next == null
    && (p != null ==> p.next == null)
  }

  twostate lemma PoppedList(f: Focus, new v: View, new p: View?)
    requires BooksOk(f.world.books) && f.list in f.world.books.ropes && old(ListOk(f.world.books, f.list))
    requires var vs := f.world.books.ropes[f.list]; vs != [] && v == vs[|vs| - 1] && p == old(vs[|vs| - 1].prev)
    requires var vs := f.world.books.ropes[f.list]; |vs| > 1 ==> vs[|vs| - 2].prev == old(vs[|vs| - 2].prev)
    requires TailOff(f, v, p)
    ensures Linked(f.list, f.world.books.ropes[f.list][..|f.world.books.ropes[f.list]| - 1])
  {
    var vs := f.world.books.ropes[f.list];
    var n := |vs| - 1;
    assert old(LinkOk(vs, n)) && Listed(f.world.books, f.list, n);
    forall i | 0 <= i < n ensures LinkOk(vs[..n], i) {
      assert old(LinkOk(vs, i)) && Listed(f.world.books, f.list, i) && Listed(f.world.books, f.list, n - 1);
      assert i < n - 1 ==> SameLinks(vs[i]);
    }
  }

  twostate lemma PoppedViewIsWired(f: Focus, new v: View, new p: View?)
    requires old(Wired(f.world)) && f.list in f.world.datas && f.list in f.world.books.ropes
    requires f.list in f.world.books.base
    requires var vs := f.world.books.ropes[f.list]; vs != [] && v == vs[|vs| - 1] && p == old(vs[|vs| - 1].prev)
    requires var vs := f.world.books.ropes[f.list]; |vs| > 1 ==> vs[|vs| - 2].prev == old(vs[|vs| - 2].prev)
    requires TailOff(f, v, p)
    ensures v !in f.world.books.ropes && Wired(PoppedView(f.world, f.list))
  {
    var w, d := f.world, f.list;
    var u := PoppedView(w, d);
    var vs := w.books.ropes[d];
    var e := Effect({}, One(p) + {v}, null, null, {d});
    assert old(ListOk(w.books, d)) && Listed(w.books, d, |vs| - 1) && old(LinkOk(vs, |vs| - 1));
    assert |vs| > 1 ==> Listed(w.books, d, |vs| - 2);
    assert old(ViewOk(w.books, w.holders, vs[|vs| - 1])) && SamePart(vs[|vs| - 1]) && SameData(vs[|vs| - 1].chunk);
    OwnersAreNoViews(w.books, d, v);
    assert BooksOk(u.books) by {
      PoppedOk(w.books, d);
    }
    assert ViewsOk(u) by {
      PoppedKeeps(w.books, d);
      ViewsStay(w, u, e, {v});
    }
    assert ChunksOk(u) by {
      ChunksStay(w, u, e);
    }
    assert ListsOk(u) by {
      PoppedList(f, v, p);
      RopeIsOwned(u.books, d);
      ListsStay(w, u, e, v);
    }
  }

  // The first view has been taken off its list.
  twostate predicate HeadOff(f: Focus, new v: View, new p: View?)
    reads *
  {
    && Only(f.world, Effect({}, One(p) + {v}, null, null, {f.list}))
    && f.list.tail == (if p == null then null else old(f.list.tail)) && f.list.head == p
    && v.prev == null && v.next == null
    && (p != null ==> p.prev == null)
  }

  twostate lemma ShiftedList(f: Focus, new v: View, new p: View?)
    requires BooksOk(f.world.books) && f.list in f.world.books.ropes && old(ListOk(f.world.books, f.list))
    requires var vs := f.world.books.ropes[f.list]; vs != [] && v == vs[0] && p == old(vs[0].next)
    requires var vs := f.world.books.ropes[f.list]; |vs| > 1 ==> vs[1].next == old(vs[1].next)
    requires HeadOff(f, v, p)
    ensures Linked(f.list, f.world.books.ropes[f.list][1..])
  {
    var vs := f.world.books.ropes[f.list];
    assert old(LinkOk(vs, 0)) && Listed(f.world.books, f.list, 0);
    forall i | 0 <= i < |vs| - 1 ensures LinkOk(vs[1..], i) {
      assert old(LinkOk(vs, i + 1)) && Listed(f.world.books, f.list, i + 1) && Listed(f.world.books, f.list, 1);
      assert i > 0 ==> SameLinks(vs[i + 1]);
    }
  }

  twostate lemma ShiftedViewIsWired(f: Focus, new v: View, new p: View?)
    requires old(Wired(f.world)) && f.list in f.world.datas && f.list in f.world.books.ropes
    requires f.list in f.world.books.base
    requires var vs := f.world.books.ropes[f.list]; vs != [] && v == vs[0] && p == old(vs[0].next)
    requires var vs := f.world.books.ropes[f.list]; |vs| > 1 ==> vs[1].next == old(vs[1].next)
    requires HeadOff(f, v, p)
    ensures v !in f.world.books.ropes && Wired(ShiftedView(f.world, f.list))
  {
    var w, d := f.world, f.list;
    var u := ShiftedView(w, d);
    var vs := w.books.ropes[d];
    var e := Effect({}, One(p) + {v}, null, null, {d});
    assert old(ListOk(w.books, d)) && Listed(w.books, d, 0) && old(LinkOk(vs, 0));
    assert |vs| > 1 ==> Listed(w.books, d, 1);
    assert old(ViewOk(w.books, w.holders, vs[0])) && SamePart(vs[0]) && SameData(vs[0].chunk);
    OwnersAreNoViews(w.books, d, v);
    assert BooksOk(u.books) by {
      ShiftedOk(w.books, d);
    }
    assert ViewsOk(u) by {
      ShiftedKeeps(w.books, d);
      ViewsStay(w, u, e, {v});
    }
    assert ChunksOk(u) by {
      ChunksStay(w, u, e);
    }
    assert ListsOk(u) by {
      ShiftedList(f, v, p);
      RopeIsOwned(u.books, d);
      ListsStay(w, u, e, v);
    }
  }

  // A loose view has been put first.
  twostate predicate HeadOn(f: Focus, new v: View)
    reads *
  {
    && Only(f.world, Effect({}, One(old(f.list.head)) + {v}, null, null, {f.list}))
    && f.list.tail == (if old(f.list.head) == null then v else old(f.list.tail)) && f.list.head == v
    && v.prev == null && v.next == old(f.list.head)
    && (old(f.list.head) != null ==> old(f.list.head).next == old(f.list.head.next) && old(f.list.head).prev == v)
  }

  twostate lemma UnshiftedList(f: Focus, new v: View)
    requires BooksOk(f.world.books) && old(ListOk(f.world.books, f.list)) && Loose(f.world.books, v)
    requires HeadOn(f, v)
    ensures Linked(f.list, [v] + f.world.books.ropes[f.list])
  {
    var vs := f.world.books.ropes[f.list];
    forall i | 0 <= i < |vs| + 1 ensures LinkOk([v] + vs, i) {
      if i > 0 {
        assert old(LinkOk(vs, i - 1)) && Listed(f.world.books, f.list, i - 1) && Listed(f.world.books, f.list, 0);
        assert i > 1 ==> SameLinks(vs[i - 1]);
      }
    }
  }

  twostate lemma UnshiftedViewIsWired(f: Focus, new v: View)
    requires old(Wired(f.world)) && Loose(f.world.books, v) && f.list in f.world.datas
    requires f.list in f.world.books.ropes && f.list in f.world.books.base
    requires HeadOn(f, v)
    ensures Wired(UnshiftedView(f.world, f.list, v))
  {
    var w, d := f.world, f.list;
    var u := UnshiftedView(w, d, v);
    var vs := w.books.ropes[d];
    var e := Effect({}, One(old(d.head)) + {v}, null, null, {d});
    assert old(ListOk(w.books, d)) && old(ViewOk(w.books, w.holders, v));
    assert vs != [] ==> Listed(w.books, d, 0);
    assert BooksOk(u.books) by {
      UnshiftedOk(w.books, d, v);
    }
    assert ViewsOk(u) by {
      UnshiftedKeeps(w.books, d, v);
      assert SamePart(v) && SameData(v.chunk);
      ViewsStay(w, u, e, {v});
    }
    assert ChunksOk(u) by {
      ChunksStay(w, u, e);
    }
    assert ListsOk(u) by {
      UnshiftedList(f, v);
      RopeIsOwned(u.books, d);
      ListsStay(w, u, e, v);
    }
  }

  // Two lists at work on.
  datatype Pair = Pair(world: World, list: Data, other: Data)

  ghost function JoinedViews(w: World, d: Data, e: Data): World
    requires d in w.books.ropes && d in w.books.base && e in w.books.ropes && e in w.books.base
  {
    w.(books := Joined(w.books, d, e))
  }

  // The list of the other has been put after the list.
  twostate predicate Appended(p: Pair)
    reads *
  {
    && Only(p.world, Effect({}, One(old(p.list.tail)) + One(old(p.other.head)), null, null, {p.list, p.other}))
    && old(p.other.head) != null && old(p.other.tail) != null && p.other.head == null && p.other.tail == null
    && p.list.head == (if old(p.list.tail) == null then old(p.other.head) else old(p.list.head))
    && p.list.tail == old(p.other.tail)
    && (old(p.list.tail) != null ==>
      old(p.list.tail).prev == old(p.list.tail.prev) && old(p.list.tail).next == old(p.other.head))
    && old(p.other.head).prev == old(p.list.tail) && old(p.other.head).next == old(p.other.head.next)
  }

  twostate lemma JoinedList(p: Pair)
    requires p.list != p.other && BooksOk(p.world.books)
    requires old(ListOk(p.world.books, p.list)) && old(ListOk(p.world.books, p.other)) && Appended(p)
    ensures Linked(p.list, p.world.books.ropes[p.list] + p.world.books.ropes[p.other])
  {
    var b := p.world.books;
    var vs, ws := b.ropes[p.list], b.ropes[p.other];
    var n := |vs|;
    assert ws != [] && Listed(b, p.other, 0);
    assert n > 0 ==> Listed(b, p.list, n - 1);
    forall i | 0 <= i < n + |ws| ensures LinkOk(vs + ws, i) {
      if i < n {
        assert old(LinkOk(vs, i)) && Listed(b, p.list, i);
        assert i < n - 1 ==> SameLinks(vs[i]);
      } else {
        assert old(LinkOk(ws, i - n)) && Listed(b, p.other, i - n);
        assert i > n ==> SameLinks(ws[i - n]);
      }
    }
  }

  twostate lemma JoinedViewsAreOk(p: Pair)
    requires old(Wired(p.world)) && p.list in p.world.datas && p.other in p.world.datas && p.list != p.other
    requires Appended(p)
    requires p.list in p.world.books.ropes && p.list in p.world.books.base
    requires p.other in p.world.books.ropes && p.other in p.world.books.base
    ensures BooksOk(JoinedViews(p.world, p.list, p.other).books) && ViewsOk(JoinedViews(p.world, p.list, p.other))
  {
    var w := p.world;
    var u := JoinedViews(w, p.list, p.other);
    var vs, ws := w.books.ropes[p.list], w.books.ropes[p.other];
    var e := Effect({}, One(old(p.list.tail)) + One(old(p.other.head)), null, null, {p.list, p.other});
    JoinedIsOk(w.books, p.list, p.other);
    JoinedKeeps(w.books, p.list, p.other);
    RopeIsOwned(w.books, p.list);
    RopeIsOwned(w.books, p.other);
    assert old(ListOk(w.books, p.list)) && old(ListOk(w.books, p.other));
    forall v | v in ws ensures ViewOk(u.books, u.holders, v) {
      assert old(ViewOk(w.books, w.holders, v)) && SamePart(v) && SameData(v.chunk);
      assert u.books.owner[v] == p.list;
    }
    ViewsStay(w, u, e, set v <- ws);
  }

  twostate lemma JoinedViewsIsWired(p: Pair)
    requires old(Wired(p.world)) && p.list in p.world.datas && p.other in p.world.datas && p.list != p.other
    requires Appended(p)
    requires p.list in p.world.books.ropes && p.list in p.world.books.base
    requires p.other in p.world.books.ropes && p.other in p.world.books.base
    ensures Wired(JoinedViews(p.world, p.list, p.other))
  {
    var w := p.world;
    var u := JoinedViews(w, p.list, p.other);
    var vs, ws := w.books.ropes[p.list], w.books.ropes[p.other];
    var e := Effect({}, One(old(p.list.tail)) + One(old(p.other.head)), null, null, {p.list, p.other});
    JoinedViewsAreOk(p);
    assert old(ListOk(w.books, p.list)) && old(ListOk(w.books, p.other));
    assert ChunksOk(u) by {
      ChunksStay(w, u, e);
    }
    assert ListsOk(u) by {
      JoinedList(p);
      RopeIsOwned(u.books, p.list);
      RopeIsOwned(u.books, p.other);
      assert Listed(w.books, p.other, 0);
      assert vs != [] ==> Listed(w.books, p.list, |vs| - 1);
      ListsStay(w, u, e, old(p.other.head));
    }
  }

  ghost function SharedView(w: World, s: SharedData, v: View): World
    requires s in w.books.ropes && s in w.books.base
  {
    w.(books := Pushed(w.books, s, v))
  }

  // Where a view of a shared list is put.
  datatype Share = Share(world: World, list: SharedData, last: View?)

  twostate predicate Chainlinked(p: Share, new v: View)
    reads *
  {
    && Only(p.world, Effect({}, One(p.last), null, null, {p.list}))
    && v.prev == null && v.next == null
    && p.list.views == (if p.last == null then v else old(p.list.views))
    && (p.last != null ==> p.last.next == v)
  }

  twostate lemma SharedList(p: Share, new v: View)
    requires BooksOk(p.world.books) && old(SharedOk(p.world.books, p.list)) && Chainlinked(p, v)
    requires var vs := p.world.books.ropes[p.list]; p.last == LastView(vs)
    ensures Chained(p.list, p.world.books.ropes[p.list] + [v])
  {
    var vs := p.world.books.ropes[p.list];
    var n := |vs| - 1;
    forall i | 0 <= i < |vs| + 1 ensures NextOk(vs + [v], i) {
      if i <= n {
        assert old(NextOk(vs, i)) && Listed(p.world.books, p.list, i) && Listed(p.world.books, p.list, n);
        assert i < n ==> SameLinks(vs[i]);
      }
    }
  }

  twostate lemma SharedViewIsWired(p: Share, new v: View)
    requires old(Wired(p.world)) && Loose(p.world.books, v) && p.list in p.world.shareds
    requires p.list in p.world.books.ropes && p.list in p.world.books.base && Chainlinked(p, v)
    requires var vs := p.world.books.ropes[p.list]; p.last == LastView(vs)
    ensures Wired(SharedView(p.world, p.list, v))
  {
    var w, s := p.world, p.list;
    var u := SharedView(w, s, v);
    var vs := w.books.ropes[s];
    var e := Effect({}, One(p.last), null, null, {s});
    assert old(SharedOk(w.books, s)) && old(ViewOk(w.books, w.holders, v));
    assert vs != [] ==> Listed(w.books, s, |vs| - 1);
    assert BooksOk(u.books) by {
      PushedOk(w.books, s, v);
    }
    assert ViewsOk(u) by {
      PushedKeeps(w.books, s, v);
      assert SamePart(v) && SameData(v.chunk);
      ViewsStay(w, u, e, {v});
    }
    assert ChunksOk(u) by {
      ChunksStay(w, u, e);
    }
    assert ListsOk(u) by {
      SharedList(p, v);
      RopeIsOwned(u.books, s);
      ListsStay(w, u, e, v);
    }
  }

  ghost function UnsharedView(w: World, s: SharedData): World
    requires s in w.books.ropes && s in w.books.base && w.books.ropes[s] != []
  {
    w.(books := Shifted(w.books, s))
  }

  twostate lemma UnsharedList(p: Share, new v: View)
    requires BooksOk(p.world.books) && old(SharedOk(p.world.books, p.list))
    requires Only(p.world, Effect({}, {v}, null, null, {p.list}))
    requires var vs := p.world.books.ropes[p.list]; vs != [] && v == vs[0] && p.list.views == old(vs[0].next)
    ensures Chained(p.list, p.world.books.ropes[p.list][1..])
  {
    var vs := p.world.books.ropes[p.list];
    assert old(NextOk(vs, 0)) && Listed(p.world.books, p.list, 0);
    forall i | 0 <= i < |vs| - 1 ensures NextOk(vs[1..], i) {
      assert old(NextOk(vs, i + 1)) && Listed(p.world.books, p.list, i + 1) && SameLinks(vs[i + 1]);
    }
  }

  twostate lemma UnsharedViewIsWired(p: Share, new v: View)
    requires old(Wired(p.world)) && p.list in p.world.shareds
    requires p.list in p.world.books.ropes && p.list in p.world.books.base
    requires Only(p.world, Effect({}, {v}, null, null, {p.list})) && v.prev == null && v.next == null
    requires var vs := p.world.books.ropes[p.list]; vs != [] && v == vs[0] && p.list.views == old(vs[0].next)
    ensures v !in p.world.books.ropes && Wired(UnsharedView(p.world, p.list))
  {
    var w, s := p.world, p.list;
    var u := UnsharedView(w, s);
    var vs := w.books.ropes[s];
    var e := Effect({}, {v}, null, null, {s});
    assert old(SharedOk(w.books, s)) && Listed(w.books, s, 0);
    assert old(ViewOk(w.books, w.holders, v)) && SamePart(v) && SameData(v.chunk);
    OwnersAreNoViews(w.books, s, v);
    assert BooksOk(u.books) by {
      ShiftedOk(w.books, s);
    }
    assert ViewsOk(u) by {
      ShiftedKeeps(w.books, s);
      ViewsStay(w, u, e, {v});
    }
    assert ChunksOk(u) by {
      ChunksStay(w, u, e);
    }
    assert ListsOk(u) by {
      UnsharedList(p, v);
      RopeIsOwned(u.books, s);
      ListsStay(w, u, e, v);
    }
  }

  // Whether b shows bytes right after those that a shows.
  predicate Adjacent(a: View?, b: View)
    reads a, b
  {
    a != null && a.chunk == b.chunk && a.offset + a.length == b.offset
  }

  ghost predicate HasBytes(w: World, o: object) {
    BooksOk(w.books) && o in w.books.ropes && o in w.books.base
  }

  ghost predicate HasRope(w: World, d: Data) {
    HasBytes(w, d) && d in w.datas
  }

  ghost predicate HasViews(w: World, o: object) {
    o in w.books.ropes && w.books.ropes[o] != []
  }

  ghost function Text(w: World, v: View): seq<bv8>
    requires v in w.books.text
  {
    w.books.text[v]
  }

  ghost predicate Mergeable(w: World, d: Data, v: View) {
    HasRope(w, d) && w.books.ropes[d] != [] && v in w.books.text
    && w.books.ropes[d][|w.books.ropes[d]| - 1] in w.books.text
  }

  ghost function MergedTail(w: World, d: Data, v: View, chunk: Chunk): World
    requires Mergeable(w, d, v) && chunk in w.holders
  {
    w.(books := MergedLast(w.books, d, v), holders := Released(w.holders, chunk, v))
  }

  // No views, chunks and lists but new ones have come up.
  twostate predicate Grown(w: World, new u: World)
    reads *
  {
    && u.datas == w.datas && u.shareds == w.shareds
    && (forall v :: v in u.books.owner ==> v in w.books.owner || fresh(v))
    && (forall c :: c in u.holders ==> c in w.holders || fresh(c))
  }

  ghost predicate MergeableFirst(w: World, d: Data, v: View) {
    HasRope(w, d) && w.books.ropes[d] != [] && v in w.books.text && w.books.ropes[d][0] in w.books.text
  }

  ghost function MergedHead(w: World, d: Data, v: View, chunk: Chunk): World
    requires MergeableFirst(w, d, v) && chunk in w.holders
  {
    w.(books := MergedFirst(w.books, d, v), holders := Released(w.holders, chunk, v))
  }

  // The first k bytes of d have gone to the end of e; nobody else has anything else than before.
  ghost predicate Moved(w: World, u: World, d: Data, e: Data, k: nat) {
    && HasRope(w, d) && HasRope(w, e) && BooksOk(u.books) && k <= |Bytes(w.books, d)|
    && Contents(u.books) == Give(Contents(w.books), d, e, k)
  }

  ghost function Give(m: map<object, seq<bv8>>, d: object, e: object, k: nat): map<object, seq<bv8>>
    requires d in m && e in m && k <= |m[d]|
  {
    m[d := m[d][k..]][e := m[e] + m[d][..k]]
  }

  lemma GiveTwice(m: map<object, seq<bv8>>, d: object, e: object, j: nat, k: nat)
    requires d in m && e in m && d != e && j + k <= |m[d]|
    ensures Give(Give(m, d, e, j), d, e, k) == Give(m, d, e, j + k)
  {
    assert m[d][j..][k..] == m[d][j + k..];
    assert m[e] + m[d][..j] + m[d][j..][..k] == m[e] + m[d][..j + k];
  }

  lemma GiveNone(m: map<object, seq<bv8>>, d: object, e: object)
    requires d in m && e in m
    ensures Give(m, d, e, 0) == m
  {
    assert m[d][0..] == m[d];
    assert m[e] + m[d][..0] == m[e];
  }

  // What a list's ends lead to.
  lemma Reach(w: World, d: Data)
    requires Wired(w) && d in w.datas
    ensures HasRope(w, d) && (d.head == null <==> w.books.ropes[d] == [])
    ensures (d.tail == null <==> w.books.ropes[d] == [])
    ensures d.head != null ==>
      && d.head == w.books.ropes[d][0] && d.head in w.books.owner && w.books.owner[d.head] == d
      && d.head.chunk in w.holders
      && (d.head.next == null || d.head.next in w.books.owner)
      && d.head in w.books.text && d.head.length == |w.books.text[d.head]| && d.head !in w.books.ropes
    ensures d.tail != null ==>
      && d.tail == w.books.ropes[d][|w.books.ropes[d]| - 1] && d.tail in w.books.owner && w.books.owner[d.tail] == d
      && d.tail.chunk in w.holders && (d.tail.prev == null || d.tail.prev in w.books.owner)
      && d.tail in w.books.text && d.tail.length == |w.books.text[d.tail]| && d.tail !in w.books.ropes
  {
    assert ListOk(w.books, d);
    var n := |w.books.ropes[d]| - 1;
    if d.head != null {
      assert Listed(w.books, d, 0) && LinkOk(w.books.ropes[d], 0) && ViewOk(w.books, w.holders, d.head);
      assert Listed(w.books, d, n) && LinkOk(w.books.ropes[d], n) && ViewOk(w.books, w.holders, d.tail);
      OwnersAreNoViews(w.books, d, d.head);
      OwnersAreNoViews(w.books, d, d.tail);
    }
  }

  // The first view shows the first bytes.
  lemma HeadFits(w: World, d: Data)
    requires Wired(w) && d in w.datas && d.head != null
    ensures HasRope(w, d) && d.head in w.books.text && d.head.length <= |Bytes(w.books, d)|
    ensures w.books.text[d.head] == Bytes(w.books, d)[..d.head.length]
  {
    Reach(w, d);
    OwnedIsShown(w.books, d);
    CatAround(w.books.ropes[d], 0, w.books.text);
    assert w.books.ropes[d][..0] == [];
    assert Cat([], w.books.text) == [];
  }

  // The last view shows the last bytes.
  lemma TailFits(w: World, d: Data)
    requires Wired(w) && d in w.datas && d.tail != null
    ensures HasRope(w, d) && d.tail in w.books.text && d.tail.length <= |Bytes(w.books, d)|
    ensures w.books.text[d.tail] == Bytes(w.books, d)[|Bytes(w.books, d)| - d.tail.length..]
  {
    Reach(w, d);
    OwnedIsShown(w.books, d);
    var n := |w.books.ropes[d]| - 1;
    CatAround(w.books.ropes[d], n, w.books.text);
    assert w.books.ropes[d][n + 1..] == [];
    assert Cat([], w.books.text) == [];
  }

  lemma LooseReach(w: World, v: View)
    requires Wired(w) && Loose(w.books, v)
    ensures v.chunk in w.holders && v in w.books.text && v.length == |w.books.text[v]|
  {
    assert ViewOk(w.books, w.holders, v);
  }

  // A view that left d and was put to the end of e.
  lemma MovedByHead(w: World, x: World, u: World, d: Data, e: Data, v: View, k: nat)
    requires HasRope(w, d) && HasRope(w, e) && d != e && v !in w.books.ropes && v in w.books.text
    requires k == |w.books.text[v]|
    requires BooksOk(x.books) && d in x.books.ropes && e in x.books.ropes && v in x.books.text && BooksOk(u.books)
    requires Bytes(w.books, d) == w.books.text[v] + Bytes(x.books, d) && x.books.text[v] == w.books.text[v]
    requires Contents(x.books) == Contents(w.books)[d := Bytes(x.books, d)][v := w.books.text[v]]
    requires Contents(u.books) == (Contents(x.books) - {v})[e := Bytes(x.books, e) + x.books.text[v]]
    ensures Moved(w, u, d, e, k)
  {
    assert Bytes(x.books, e) == Contents(x.books)[e] == Contents(w.books)[e];
    assert Bytes(w.books, d)[k..] == Bytes(x.books, d);
  }

  // Bytes split off the first view of d and put to the end of e.
  lemma MovedByPart(w: World, x: World, u: World, d: Data, e: Data, v: View, n: nat, t: seq<bv8>)
    requires HasRope(w, d) && HasRope(w, e) && d != e && v !in w.books.ropes && n <= |Bytes(w.books, d)|
    requires BooksOk(x.books) && e in x.books.ropes && v in x.books.text && BooksOk(u.books)
    requires x.books.text[v] == Bytes(w.books, d)[..n] && t == Bytes(w.books, d)[n..]
    requires Contents(x.books) == Contents(w.books)[v := x.books.text[v]][d := t]
    requires Contents(u.books) == (Contents(x.books) - {v})[e := Bytes(x.books, e) + x.books.text[v]]
    ensures Moved(w, u, d, e, n)
  {
    assert Bytes(x.books, e) == Contents(x.books)[e] == Contents(w.books)[e];
  }

  lemma MovedTrans(w: World, x: World, u: World, d: Data, e: Data, j: nat, k: nat) returns (total: nat)
    requires d != e && Moved(w, x, d, e, j) && Moved(x, u, d, e, k)
    ensures total == j + k && Moved(w, u, d, e, total)
  {
    total := j + k;
    assert Bytes(x.books, d) == Contents(x.books)[d];
    GiveTwice(Contents(w.books), d, e, j, k);
  }

  // What Moved says of the two.
  lemma MovedBytes(w: World, u: World, d: Data, e: Data, k: nat)
    requires d != e && Moved(w, u, d, e, k)
    ensures d in u.books.ropes && Bytes(u.books, d) == Bytes(w.books, d)[k..]
    ensures e in u.books.ropes && Bytes(u.books, e) == Bytes(w.books, e) + Bytes(w.books, d)[..k]
  {
    assert d in Contents(u.books) && e in Contents(u.books);
    assert Bytes(u.books, d) == Contents(u.books)[d] && Bytes(u.books, e) == Contents(u.books)[e];
  }

  // The last k bytes of d have gone to the front of e; nobody else has anything else.
  ghost predicate MovedBack(w: World, u: World, d: Data, e: Data, k: nat) {
    && HasRope(w, d) && HasRope(w, e) && BooksOk(u.books) && k <= |Bytes(w.books, d)|
    && Contents(u.books) == GiveBack(Contents(w.books), d, e, k)
  }

  ghost function GiveBack(m: map<object, seq<bv8>>, d: object, e: object, k: nat): map<object, seq<bv8>>
    requires d in m && e in m && k <= |m[d]|
  {
    m[d := m[d][..|m[d]| - k]][e := m[d][|m[d]| - k..] + m[e]]
  }

  lemma GiveBackTwice(m: map<object, seq<bv8>>, d: object, e: object, j: nat, k: nat)
    requires d in m && e in m && d != e && j + k <= |m[d]|
    ensures GiveBack(GiveBack(m, d, e, j), d, e, k) == GiveBack(m, d, e, j + k)
  {
    var n := |m[d]|;
    assert m[d][..n - j][..n - j - k] == m[d][..n - (j + k)];
    assert m[d][..n - j][n - j - k..] + (m[d][n - j..] + m[e]) == m[d][n - (j + k)..] + m[e];
  }

  lemma GiveBackNone(m: map<object, seq<bv8>>, d: object, e: object)
    requires d in m && e in m
    ensures GiveBack(m, d, e, 0) == m
  {
    assert m[d][..|m[d]|] == m[d];
    assert m[d][|m[d]|..] + m[e] == m[e];
  }

  lemma MovedBackTwice(w: World, x: World, u: World, d: Data, e: Data, j: nat, k: nat, total: nat)
    requires d != e && MovedBack(w, x, d, e, j) && MovedBack(x, u, d, e, k) && total == j + k
    ensures MovedBack(w, u, d, e, total)
  {
    var m := Contents(w.books);
    assert m[d] == Bytes(w.books, d);
    assert GiveBack(m, d, e, j)[d] == m[d][..|m[d]| - j];
    assert Bytes(x.books, d) == Contents(x.books)[d];
    GiveBackTwice(m, d, e, j, k);
  }

  lemma MovedBackTrans(w: World, x: World, u: World, d: Data, e: Data, j: nat, k: nat) returns (total: nat)
    requires d != e && MovedBack(w, x, d, e, j) && MovedBack(x, u, d, e, k)
    ensures total == j + k && MovedBack(w, u, d, e, total)
  {
    total := j + k;
    MovedBackTwice(w, x, u, d, e, j, k, total);
  }

  lemma MovedBackBytes(w: World, u: World, d: Data, e: Data, k: nat)
    requires d != e && MovedBack(w, u, d, e, k)
    ensures d in u.books.ropes && Bytes(u.books, d) == Bytes(w.books, d)[..|Bytes(w.books, d)| - k]
    ensures e in u.books.ropes && Bytes(u.books, e) == Bytes(w.books, d)[|Bytes(w.books, d)| - k..] + Bytes(w.books, e)
  {
    var c := Contents(u.books);
    assert c == GiveBack(Contents(w.books), d, e, k);
    assert d in c && e in c && Bytes(u.books, d) == c[d] && Bytes(u.books, e) == c[e];
  }

  lemma MovedByTail(w: World, x: World, u: World, d: Data, e: Data, v: View, k: nat)
    requires HasRope(w, d) && HasRope(w, e) && d != e && v !in w.books.ropes && v in w.books.text
    requires k == |w.books.text[v]|
    requires BooksOk(x.books) && d in x.books.ropes && e in x.books.ropes && v in x.books.text && BooksOk(u.books)
    requires Bytes(w.books, d) == Bytes(x.books, d) + w.books.text[v] && x.books.text[v] == w.books.text[v]
    requires Contents(x.books) == Contents(w.books)[d := Bytes(x.books, d)][v := w.books.text[v]]
    requires Contents(u.books) == (Contents(x.books) - {v})[e := x.books.text[v] + Bytes(x.books, e)]
    ensures MovedBack(w, u, d, e, k)
  {
    assert Bytes(x.books, e) == Contents(x.books)[e] == Contents(w.books)[e];
    var n := |Bytes(w.books, d)|;
    assert Bytes(w.books, d)[..n - k] == Bytes(x.books, d) && Bytes(w.books, d)[n - k..] == w.books.text[v];
  }

  lemma MovedByLastPart(w: World, x: World, u: World, d: Data, e: Data, v: View, n: nat, t: seq<bv8>)
    requires HasRope(w, d) && HasRope(w, e) && d != e && v !in w.books.ropes && n <= |Bytes(w.books, d)|
    requires BooksOk(x.books) && e in x.books.ropes && v in x.books.text && BooksOk(u.books)
    requires x.books.text[v] == Bytes(w.books, d)[|Bytes(w.books, d)| - n..]
    requires t == Bytes(w.books, d)[..|Bytes(w.books, d)| - n]
    requires Contents(x.books) == Contents(w.books)[d := t][v := x.books.text[v]]
    requires Contents(u.books) == (Contents(x.books) - {v})[e := x.books.text[v] + Bytes(x.books, e)]
    ensures MovedBack(w, u, d, e, n)
  {
    assert Bytes(x.books, e) == Contents(x.books)[e] == Contents(w.books)[e];
  }

  // ----- between operations ----------------------------------------------------------------

  ghost predicate Sized(w: World)
    reads w.datas
  {
    BooksOk(w.books) && forall d {:trigger d in w.datas} :: d in w.datas ==>
      d in w.books.ropes && d.size == |Bytes(w.books, d)|
  }

  // No view is in nobody's list, and nobody's list is unknown.
  ghost predicate Settled(w: World) {
    forall o :: o in w.books.ropes ==>
      (o is Data && o as Data in w.datas) || (o is SharedData && o as SharedData in w.shareds)
  }

  ghost predicate Ok(w: World)
    reads w.books.owner.Keys, w.holders.Keys, w.datas, w.shareds
  {
    Wired(w) && Sized(w) && Settled(w)
  }

  twostate lemma MovedBackIsOk(f: Focus, new u: World, new e: Data, new k: nat)
    requires old(Ok(f.world)) && Wired(u) && f.list in f.world.datas && e in f.world.datas && f.list != e
    requires u.datas == f.world.datas && u.shareds == f.world.shareds && MovedBack(f.world, u, f.list, e, k)
    requires forall d <- f.world.datas :: d != f.list && d != e ==> d.size == old(d.size)
    requires f.list.size == |Bytes(f.world.books, f.list)| - k && e.size == |Bytes(f.world.books, e)| + k
    ensures Ok(u)
  {
    assert u.books.ropes.Keys == Contents(u.books).Keys == Contents(f.world.books).Keys;
    forall d | d in u.datas ensures d in u.books.ropes && d.size == |Bytes(u.books, d)| {
      assert d in f.world.books.ropes;
      assert Bytes(u.books, d) == Contents(u.books)[d];
    }
  }

  twostate lemma MovedIsOk(f: Focus, new u: World, new e: Data, new k: nat)
    requires old(Ok(f.world)) && Wired(u) && f.list in f.world.datas && e in f.world.datas && f.list != e
    requires u.datas == f.world.datas && u.shareds == f.world.shareds && Moved(f.world, u, f.list, e, k)
    requires forall d <- f.world.datas :: d != f.list && d != e ==> d.size == old(d.size)
    requires f.list.size == |Bytes(f.world.books, f.list)| - k && e.size == |Bytes(f.world.books, e)| + k
    ensures Ok(u)
  {
    assert u.books.ropes.Keys == Contents(u.books).Keys == Contents(f.world.books).Keys;
    forall d | d in u.datas ensures d in u.books.ropes && d.size == |Bytes(u.books, d)| {
      assert d in f.world.books.ropes;
      assert Bytes(u.books, d) == Contents(u.books)[d];
    }
  }

  // new View(v)
  method MakeCopy(ghost w: World, v: View) returns (r: View, ghost s: seq<bv8>, ghost u: World)
    requires Wired(w) && v in w.books.owner
    modifies w.holders.Keys
    ensures Wired(u) && fresh(r) && Loose(u.books, r) && r !in w.books.owner && r !in w.books.ropes
    ensures v in w.books.text && s == Text(w, v) && r in u.books.text && Text(u, r) == s
    ensures Contents(u.books) == Contents(w.books)[r := s]
    ensures u.datas == w.datas && u.shareds == w.shareds && u.holders.Keys == w.holders.Keys
    ensures u.books == Created(w.books, r, s)
  {
    assert ViewOk(w.books, w.holders, v);
    r, s, u := MakePart(w, v, 0, v.length);
  }

  // The bytes a view shows.
  function Shows(ghost w: World, v: View): (t: seq<bv8>)
    requires Wired(w) && v in w.books.owner
    reads v, v.chunk, w.books.owner.Keys, w.holders.Keys, w.datas`head, w.datas`tail, w.shareds
    ensures v in w.books.text && t == w.books.text[v]
  {
    assert ViewOk(w.books, w.holders, v);
    v.chunk.data[v.offset..v.offset + v.length]
  }

  // d has got other bytes, and nobody else has.
  ghost predicate Changed(w: World, u: World, d: object, t: seq<bv8>) {
    HasBytes(w, d) && BooksOk(u.books) && Contents(u.books) == Contents(w.books)[d := t]
  }

  lemma NotChanged(w: World, d: object)
    requires HasBytes(w, d)
    ensures Changed(w, w, d, Bytes(w.books, d))
  {
  }

  lemma Assoc(s: seq<bv8>, t: seq<bv8>, r: seq<bv8>)
    ensures (s + t) + r == s + (t + r)
  {
  }

  lemma Halves(s: seq<bv8>, n: nat)
    requires n <= |s|
    ensures s == s[..n] + s[n..]
  {
  }

  lemma Regroup(s: seq<bv8>, t: seq<bv8>, n: nat)
    requires n <= |t|
    ensures s + t[..n] + t[n..] == s + t
  {
  }

  lemma ChangedBytes(w: World, u: World, d: object, t: seq<bv8>)
    requires Changed(w, u, d, t)
    ensures d in u.books.ropes && Bytes(u.books, d) == t
  {
    assert d in Contents(u.books) && Contents(u.books)[d] == t;
  }

  lemma ChangedTrans(w: World, x: World, u: World, d: object, s: seq<bv8>, t: seq<bv8>)
    requires Changed(w, x, d, s) && Changed(x, u, d, t)
    ensures Changed(w, u, d, t)
  {
  }

  twostate lemma ChangedIsOk(f: Focus, new u: World, new t: seq<bv8>)
    requires old(Ok(f.world)) && Wired(u) && f.list in f.world.datas && u.datas == f.world.datas
    requires u.shareds == f.world.shareds
    requires Changed(f.world, u, f.list, t) && f.list.size == |t|
    requires forall d <- f.world.datas :: d != f.list ==> d.size == old(d.size)
    ensures Ok(u)
  {
    assert u.books.ropes.Keys == Contents(u.books).Keys == Contents(f.world.books).Keys;
    forall d | d in u.datas ensures d in u.books.ropes && d.size == |Bytes(u.books, d)| {
      assert d in f.world.books.ropes;
      assert Bytes(u.books, d) == Contents(u.books)[d];
    }
  }

  lemma ClearedBytes(w: World, x: World, d: object, o: object)
    requires Changed(w, x, d, []) && o != d && o in w.books.ropes
    ensures o in x.books.ropes && Bytes(x.books, o) == Bytes(w.books, o)
    ensures d in x.books.ropes && Bytes(x.books, d) == [] && [] + Bytes(x.books, o) == Bytes(w.books, o)
  {
    assert Contents(x.books)[o] == Contents(w.books)[o] && Contents(x.books)[d] == [];
  }

  // A new view of s was put to the end of d.
  lemma GivenAll(w: World, x: World, u: World, d: Data, out: Data, all: nat)
    requires HasRope(w, d) && HasRope(w, out) && d != out && Changed(w, x, out, [])
    requires HasRope(x, d) && Bytes(x.books, d) == Bytes(w.books, d) && all == |Bytes(x.books, d)|
    requires Moved(x, u, d, out, all)
    ensures Contents(u.books) == Contents(w.books)[out := Bytes(w.books, d)][d := []]
  {
    ChangedBytes(w, x, out, []);
    var s := Bytes(w.books, d);
    assert [] + s[..all] == s && s[all..] == [];
  }

  lemma AddedView(w: World, x: World, u: World, d: object, v: View, s: seq<bv8>, t: seq<bv8>)
    requires HasBytes(w, d) && v !in w.books.ropes && BooksOk(x.books) && BooksOk(u.books) && d in x.books.ropes
    requires v in x.books.text && x.books.text[v] == s && t == Bytes(w.books, d) + s
    requires Contents(x.books) == Contents(w.books)[v := s]
    requires Contents(u.books) == (Contents(x.books) - {v})[d := Bytes(x.books, d) + x.books.text[v]]
    ensures Changed(w, u, d, t)
  {
    assert Bytes(x.books, d) == Contents(x.books)[d];
  }

  // new View(new Chunk, 0, 0)
  method MakeEmpty(ghost w: World) returns (v: View, ghost u: World)
    requires Wired(w)
    ensures Wired(u) && fresh(v) && fresh(v.chunk) && v !in w.books.owner && v !in w.books.ropes
    ensures u == MadeView(w, v, v.chunk, []) && v.chunk.retain_count == 1 && v.offset + v.length == 0
  {
    var chunk := new Chunk();
    v, u := MakeView(w, chunk, 0, 0);
    assert chunk.data[0..0] == [];
    assert ChunkOk(u.books, u.holders, chunk);
  }

  // A new chunk with as many of the bytes as fit, and a view of them.
  method MakeFilled(ghost w: World, bytes: seq<bv8>) returns (v: View, added: nat, ghost t: seq<bv8>, ghost u: World)
    requires Wired(w)
    ensures Wired(u) && fresh(v) && fresh(v.chunk) && Grown(w, u) && Loose(u.books, v) && v !in w.books.ropes
    ensures added == Min(CHUNK_SIZE, |bytes|) <= |bytes| && t == bytes[..added] && v in u.books.text && Text(u, v) == t
    ensures Contents(u.books) == Contents(w.books)[v := t]
  {
    ghost var x;
    v, x := MakeEmpty(w);
    added, u := GrowView(x, v, bytes);
    t := bytes[..added];
    assert x.books.text[v] + t == t;
    FilledOk(w.books, v, t);
  }

  // delete view, as far as bytes go
  method Discard(ghost w: World, v: View) returns (ghost u: World)
    requires Wired(w) && Loose(w.books, v)
    modifies w.holders.Keys
    ensures Wired(u) && Grown(w, u)
    ensures Contents(u.books) == Contents(w.books) - {v}
    ensures forall p :: p in w.books.ropes && p != v ==> p in u.books.ropes && u.books.ropes[p] == w.books.ropes[p]
  {
    LooseReach(w, v);
    DroppedOk(w.books, v);
    u := DeleteView(w, v);
  }

  lemma TakenOff(w: World, x: World, u: World, d: object, v: View, s: seq<bv8>, t: seq<bv8>)
    requires HasBytes(w, d) && v !in w.books.ropes && BooksOk(x.books) && BooksOk(u.books)
    requires Contents(x.books) in {Contents(w.books)[d := t][v := s], Contents(w.books)[v := s][d := t]}
    requires Contents(u.books) == Contents(x.books) - {v}
    ensures Changed(w, u, d, t)
  {
  }

  // new View(v->chunk, v->offset + from, to - from)
  method MakePart(ghost w: World, v: View, from: nat, to: nat) returns (r: View, ghost s: seq<bv8>, ghost u: World)
    requires Wired(w) && v in w.books.owner && from <= to <= v.length
    modifies w.holders.Keys
    ensures Wired(u) && fresh(r) && Loose(u.books, r) && r !in w.books.owner && r !in w.books.ropes
    ensures v in w.books.text && to <= |Text(w, v)| && s == Text(w, v)[from..to] && r in u.books.text && Text(u, r) == s
    ensures Contents(u.books) == Contents(w.books)[r := s]
    ensures u.datas == w.datas && u.shareds == w.shareds && u.holders.Keys == w.holders.Keys
    ensures u.books == Created(w.books, r, s)
  {
    assert ViewOk(w.books, w.holders, v);
    s := Text(w, v)[from..to];
    PartOfPart(v.chunk.data, v.offset, v.length, from, to);
    r, u := MakeView(w, v.chunk, v.offset + from, to - from);
    CreatedOk(w.books, r, s);
  }

  // An owner whose views are linked one to the next.
  ghost predicate Lists(w: World, o: object) {
    (o is Data && o as Data in w.datas) || (o is SharedData && o as SharedData in w.shareds)
  }

  ghost function LastView(vs: seq<View>): View? {
    if vs == [] then null else vs[|vs| - 1]
  }

  ghost function NthView(vs: seq<View>, i: nat): View? {
    if i < |vs| then vs[i] else null
  }

  lemma NextView(w: World, o: object, i: nat)
    requires Wired(w) && Lists(w, o)
    ensures o in w.books.ropes && (forall v <- w.books.ropes[o] :: v in w.books.owner && w.books.owner[v] == o)
    ensures i < |w.books.ropes[o]| ==> w.books.ropes[o][i].next == NthView(w.books.ropes[o], i + 1)
    ensures i < |w.books.ropes[o]| ==>
      w.books.ropes[o][i] in w.books.text && w.books.ropes[o][i].length == |w.books.text[w.books.ropes[o][i]]|
  {
    if o is Data {
      assert ListOk(w.books, o as Data);
      assert i < |w.books.ropes[o]| ==> LinkOk(w.books.ropes[o], i);
    } else {
      assert SharedOk(w.books, o as SharedData);
      assert i < |w.books.ropes[o]| ==> NextOk(w.books.ropes[o], i);
    }
    RopeIsOwned(w.books, o);
    assert i < |w.books.ropes[o]| ==> ViewOk(w.books, w.holders, w.books.ropes[o][i]);
  }

  // The first i views of o have been copied to the end of d.
  ghost predicate Copied(w: World, u: World, d: object, o: object, i: nat, t: seq<bv8>) {
    && HasBytes(w, d) && o in w.books.ropes && o != d && i <= |w.books.ropes[o]|
    && Shown(w.books.ropes[o], w.books.text)
    && Changed(w, u, d, t) && Beside(w.books, u.books, d)
    && t == Bytes(w.books, d) + Cat(w.books.ropes[o][..i], w.books.text)
  }

  lemma CopiedNone(w: World, d: object, o: object)
    requires HasBytes(w, d) && o in w.books.ropes && o != d
    ensures Copied(w, w, d, o, 0, Bytes(w.books, d))
  {
    OwnedIsShown(w.books, o);
    assert w.books.ropes[o][..0] == [];
    assert Bytes(w.books, d) + [] == Bytes(w.books, d);
  }

  lemma CopiedAll(w: World, u: World, d: object, o: object, i: nat, t: seq<bv8>)
    requires Copied(w, u, d, o, i, t) && i == |w.books.ropes[o]|
    ensures t == Bytes(w.books, d) + Bytes(w.books, o)
  {
    assert w.books.ropes[o][..i] == w.books.ropes[o];
  }

  lemma CopiedNext(w: World, x: World, u: World, d: object, o: object, i: nat, s: seq<bv8>, t: seq<bv8>)
    returns (j: nat)
    requires Copied(w, x, d, o, i, s) && i < |w.books.ropes[o]|
    requires o in x.books.ropes && x.books.ropes[o] == w.books.ropes[o]
    requires w.books.ropes[o][i] in x.books.text
    requires t == s + x.books.text[w.books.ropes[o][i]] && Changed(x, u, d, t) && Beside(x.books, u.books, d)
    ensures j == i + 1 && Copied(w, u, d, o, j, t)
  {
    j := i + 1;
    NextText(w.books, x.books, o, d, i);
    ChangedTrans(w, x, u, d, s, t);
    BesideTrans(w.books, x.books, u.books, d);
    Assoc(Bytes(w.books, d), Cat(w.books.ropes[o][..i], w.books.text), x.books.text[w.books.ropes[o][i]]);
  }

  lemma JoinedMoves(w: World, u: World, d: Data, e: Data, k: nat)
    requires HasRope(w, d) && HasRope(w, e) && d != e && u == JoinedViews(w, d, e) && k == |Bytes(w.books, e)|
    ensures Moved(w, u, e, d, k)
  {
    JoinedOk(w.books, d, e);
    var m := Contents(w.books);
    assert m[e][k..] == [] && m[e][..k] == m[e];
  }

  lemma HeldThenReleased(h: Holders, c: Chunk, r: View, d: Chunk, v: View)
    requires c !in h && d in h && r != v
    ensures d in Held(h, c, r)
    ensures var k := Released(Held(h, c, r), d, v); k.Keys <= h.Keys + {c} && c in k && k[c] == {r}
  {
  }

  // A view with a chunk of its own does not follow any other.
  lemma SoleIsApart(w: World, d: Data, v: View)
    requires Wired(w) && d in w.datas && Loose(w.books, v) && v.chunk in w.holders && w.holders[v.chunk] == {v}
    ensures !Adjacent(d.tail, v) && (d.tail == null || d.tail in w.books.owner)
  {
    Reach(w, d);
    assert d.tail != null ==> ViewOk(w.books, w.holders, d.tail);
  }

  lemma RenewedOk(w: World, u: World, d: Data, v: View, r: View, occ: nat)
    requires HasRope(w, d) && w.books.ropes[d] != [] && v == w.books.ropes[d][|w.books.ropes[d]| - 1]
    requires r !in w.books.owner && r !in w.books.ropes && v in w.books.text && r != v
    requires u.books == Replaced(w.books, d, v, r)
    ensures Changed(w, u, d, Bytes(w.books, d)) && Packed(w.books, u.books, d, occ) && Beside(w.books, u.books, d)
    ensures |u.books.ropes[d]| == |w.books.ropes[d]|
    ensures forall x :: x in u.books.owner ==> x in w.books.owner || x == r
  {
    assert Changed(w, u, d, Bytes(w.books, d)) by {
      ReplacedOk(w.books, d, v, r);
    }
    ReplacedPacked(w.books, d, v, r, occ);
  }

  // How many bytes of a chunk are to be in use before pack leaves its view alone.
  function Occupancy(vacancy: real): (n: nat)
    requires 0.0 <= vacancy <= 1.0
    ensures n <= CHUNK_SIZE
    ensures CHUNK_SIZE as real * (1.0 - vacancy) <= n as real < CHUNK_SIZE as real * (1.0 - vacancy) + 1.0
  {
    var x := CHUNK_SIZE as real * vacancy;
    assert x <= CHUNK_SIZE as real;
    CHUNK_SIZE - x.Floor
  }

  // The old last view has taken the first bytes of n more, as many as there is room for.
  ghost predicate LastFilled(b: Books, c: Books, d: Data, n: nat) {
    && d in b.ropes && d in c.ropes && 0 < |b.ropes[d]| <= |c.ropes[d]|
    && Width(c, d, |b.ropes[d]| - 1) == Min(LastWidth(b, d) + n, CHUNK_SIZE)
  }

  lemma StillFilled(w: World, x: World, u: World, d: Data, n: nat)
    requires d in w.books.ropes && d in x.books.ropes && |x.books.ropes[d]| == |w.books.ropes[d]| > 0
    requires LastWidth(x.books, d) == CHUNK_SIZE <= LastWidth(w.books, d) + n
    requires Grew(x.books, u.books, d) && Wired(u) && d in u.datas
    ensures LastFilled(w.books, u.books, d, n)
  {
    TailWidth(u, d);
    Reach(u, d);
    assert Width(u.books, d, |x.books.ropes[d]| - 1) >= LastWidth(x.books, d);
  }

  lemma TailWidth(w: World, d: Data)
    requires Wired(w) && d in w.datas
    ensures HasRope(w, d)
    ensures d.tail != null ==> d.tail.length <= CHUNK_SIZE && d.tail.length == LastWidth(w.books, d)
  {
    Reach(w, d);
    assert d.tail != null ==> ViewOk(w.books, w.holders, d.tail);
  }

  // The rest of a view comes after a view that is full enough.
  lemma PackedMore(w: World, x: World, u: World, d: Data, s: seq<bv8>, t: seq<bv8>, occ: nat)
    requires Changed(w, x, d, s) && Packed(w.books, x.books, d, occ) && Beside(w.books, x.books, d)
    requires Changed(x, u, d, t) && Grew(x.books, u.books, d) && Beside(x.books, u.books, d)
    requires x.books.ropes[d] == [] || LastWidth(x.books, d) >= occ
    ensures Changed(w, u, d, t) && Packed(w.books, u.books, d, occ) && Beside(w.books, u.books, d)
  {
    ChangedTrans(w, x, u, d, s, t);
    PackedByGrowth(x.books, u.books, d, occ);
    PackedTrans(w.books, x.books, u.books, d, occ);
    BesideTrans(w.books, x.books, u.books, d);
  }

  // What a scanner says to a byte, after all bytes before it.
  datatype Verdict = Go | StopAfter | StopBefore

  // How many bytes of s a scan takes, given that it took k.
  function Taken(f: seq<bv8> -> Verdict, s: seq<bv8>, k: nat): (r: nat)
    requires k <= |s|
    ensures k <= r <= |s|
    decreases |s| - k
  {
    if k == |s| then k
    else match f(s[..k + 1])
      case Go => Taken(f, s, k + 1)
      case StopAfter => k + 1
      case StopBefore => k
  }

  // A scan goes on until told to stop, and not further.
  lemma {:induction false} TakenIs(f: seq<bv8> -> Verdict, s: seq<bv8>, k: nat)
    requires k <= |s|
    ensures var r := Taken(f, s, k);
      && (forall i :: k < i < r ==> f(s[..i]) == Go)
      && (r == |s| || f(s[..r + 1]) == StopBefore || (r > k && f(s[..r]) == StopAfter))
      && (r > k ==> f(s[..r]) != StopBefore)
      && (r < |s| && f(s[..r + 1]) == StopBefore && r > k && f(s[..r]) != StopAfter ==> f(s[..r]) == Go)
    decreases |s| - k
  {
    if k < |s| && f(s[..k + 1]) == Go {
      TakenIs(f, s, k + 1);
    }
  }

  // The scans of shift_to and of shift_while.
  function To(f: seq<bv8> -> bool): seq<bv8> -> Verdict {
    s => if f(s) then StopAfter else Go
  }

  function While(f: seq<bv8> -> bool): seq<bv8> -> Verdict {
    s => if f(s) then Go else StopBefore
  }

  // n is where f first holds of all bytes so far, or the end.
  predicate FirstTo(f: seq<bv8> -> bool, s: seq<bv8>, n: nat) {
    n <= |s| && (forall i :: 0 < i < n ==> !f(s[..i])) && (n < |s| ==> n > 0 && f(s[..n]))
  }

  // f holds up to n, and no further.
  predicate LastWhile(f: seq<bv8> -> bool, s: seq<bv8>, n: nat) {
    n <= |s| && (forall i :: 0 < i <= n ==> f(s[..i])) && (n < |s| ==> !f(s[..n + 1]))
  }

  lemma TakenTo(f: seq<bv8> -> bool, s: seq<bv8>)
    ensures FirstTo(f, s, Taken(To(f), s, 0))
  {
    TakenIs(To(f), s, 0);
  }

  lemma TakenWhile(f: seq<bv8> -> bool, s: seq<bv8>)
    ensures LastWhile(f, s, Taken(While(f), s, 0))
  {
    TakenIs(While(f), s, 0);
  }

  // The scan of the bytes of one view.
  method Scan(f: seq<bv8> -> Verdict, seen: seq<bv8>, bytes: seq<bv8>, ghost all: seq<bv8>) returns (n: nat, stop: bool)
    requires seen + bytes <= all
    ensures n <= |bytes| && (!stop ==> n == |bytes|)
    ensures Taken(f, all, |seen|) == if stop then |seen| + n else Taken(f, all, |seen| + n)
  {
    n, stop := 0, false;
    while n < |bytes| && !stop
      invariant n <= |bytes|
      invariant Taken(f, all, |seen|) == if stop then |seen| + n else Taken(f, all, |seen| + n)
      decreases |bytes| - n, !stop
    {
      assert all[..|seen| + n + 1] == seen + bytes[..n + 1];
      match f(seen + bytes[..n + 1]) {
        case Go => n := n + 1;
        case StopAfter => n, stop := n + 1, true;
        case StopBefore => stop := true;
      }
    }
  }

  // ----- coming and going ------------------------------------------------------------------

  ghost function WithData(w: World, d: Data): World {
    w.(books := Opened(w.books, d), datas := w.datas + {d})
  }

  ghost function WithShared(w: World, s: SharedData): World {
    w.(books := Opened(w.books, s), shareds := w.shareds + {s})
  }

  // Other books that leave all views alone.
  lemma SameViewsAreWired(w: World, u: World)
    requires Wired(w) && BooksOk(u.books) && u.holders == w.holders
    requires u.books.owner == w.books.owner && u.books.text == w.books.text
    requires forall v :: v in w.books.owner && Loose(w.books, v) ==> Loose(u.books, v)
    requires forall d :: d in w.datas ==> d in w.books.ropes
    requires forall s :: s in w.shareds ==> s in w.books.ropes
    requires forall d :: d in u.datas ==> d in u.books.ropes
    requires forall d :: d in u.datas ==>
      if d in w.datas then u.books.ropes[d] == w.books.ropes[d] else Linked(d, u.books.ropes[d])
    requires forall s :: s in u.shareds ==> s in u.books.ropes
    requires forall s :: s in u.shareds ==>
      if s in w.shareds then u.books.ropes[s] == w.books.ropes[s] else Chained(s, u.books.ropes[s])
    ensures Wired(u)
  {
    forall v | v in u.books.owner ensures ViewOk(u.books, u.holders, v) {
      assert ViewOk(w.books, w.holders, v);
    }
    forall c | c in u.holders ensures ChunkOk(u.books, u.holders, c) {
      assert ChunkOk(w.books, w.holders, c);
    }
    forall d | d in u.datas ensures ListOk(u.books, d) {
      RopeIsOwned(u.books, d);
      assert d in w.datas ==> ListOk(w.books, d);
    }
    forall s | s in u.shareds ensures SharedOk(u.books, s) {
      RopeIsOwned(u.books, s);
      assert s in w.shareds ==> SharedOk(w.books, s);
    }
  }

  lemma WiredNames(w: World)
    requires Wired(w)
    ensures forall d :: d in w.datas ==> d in w.books.ropes
    ensures forall s :: s in w.shareds ==> s in w.books.ropes
  {
    forall d | d in w.datas ensures d in w.books.ropes {
      assert ListOk(w.books, d);
    }
    forall s | s in w.shareds ensures s in w.books.ropes {
      assert SharedOk(w.books, s);
    }
  }

  // Data()
  method MakeData(ghost w: World) returns (d: Data, ghost u: World)
    requires Ok(w)
    ensures Ok(u) && fresh(d) && u == WithData(w, d) && BooksOk(w.books)
    ensures Contents(u.books) == Contents(w.books)[d := []]
  {
    d := new Data();
    u := WithData(w, d);
    OpenedOk(w.books, d);
    WiredNames(w);
    SameViewsAreWired(w, u);
    forall x | x in u.datas ensures x in u.books.ropes && x.size == |Bytes(u.books, x)| {
      assert Bytes(u.books, x) == Contents(u.books)[x];
    }
  }

  ghost function WithoutData(w: World, d: Data): World {
    w.(books := Closed(w.books, d), datas := w.datas - {d})
  }

  ghost function WithoutShared(w: World, s: SharedData): World {
    w.(books := Closed(w.books, s), shareds := w.shareds - {s})
  }

  // A rope with no views goes, and takes nobody's bytes with it.
  lemma WithoutDataIsOk(w: World, d: Data)
    requires Ok(w) && HasRope(w, d) && w.books.ropes[d] == []
    ensures Ok(WithoutData(w, d)) && Contents(WithoutData(w, d).books) == Contents(w.books) - {d}
  {
    var u := WithoutData(w, d);
    ClosedOk(w.books, d);
    WiredNames(w);
    SameViewsAreWired(w, u);
    forall x | x in u.datas ensures x in u.books.ropes && x.size == |Bytes(u.books, x)| {
      assert Bytes(u.books, x) == Contents(u.books)[x];
    }
  }

  lemma WithoutSharedIsOk(w: World, s: SharedData)
    requires Ok(w) && HasBytes(w, s) && s in w.shareds && w.books.ropes[s] == []
    ensures Ok(WithoutShared(w, s)) && Contents(WithoutShared(w, s).books) == Contents(w.books) - {s}
  {
    var u := WithoutShared(w, s);
    ClosedOk(w.books, s);
    WiredNames(w);
    SameViewsAreWired(w, u);
    forall x | x in u.datas ensures x in u.books.ropes && x.size == |Bytes(u.books, x)| {
      assert Bytes(u.books, x) == Contents(u.books)[x];
    }
  }

  lemma ChangedAndClosed(w: World, u: World, o: object)
    requires Changed(w, u, o, []) && o in u.books.ropes && u.books.ropes[o] == []
    ensures Contents(u.books) - {o} == Contents(w.books) - {o}
  {
  }

  twostate lemma SharedIsOk(w: World, new u: World, new s: SharedData, new t: seq<bv8>)
    requires old(Ok(w)) && Wired(u) && u.datas == w.datas && u.shareds == w.shareds
    requires Changed(w, u, s, t) && s in w.books.ropes
    requires forall d <- w.datas :: d.size == old(d.size)
    ensures Ok(u)
  {
    assert u.books.ropes.Keys == Contents(u.books).Keys == Contents(w.books).Keys;
    forall d | d in u.datas ensures d in u.books.ropes && d.size == |Bytes(u.books, d)| {
      assert d in w.books.ropes;
      assert Bytes(u.books, d) == Contents(u.books)[d];
    }
  }

  method OpenShared(ghost w: World) returns (s: SharedData, ghost u: World)
    requires Ok(w)
    ensures Ok(u) && fresh(s) && BooksOk(w.books) && HasBytes(u, s) && u.books.ropes[s] == []
    ensures u.datas == w.datas && u.shareds == w.shareds + {s} && u.books.owner == w.books.owner
    ensures u.holders == w.holders
    ensures Contents(u.books) == Contents(w.books)[s := []]
  {
    s := new SharedData();
    u := WithShared(w, s);
    OpenedOk(w.books, s);
    WiredNames(w);
    SameViewsAreWired(w, u);
    forall x | x in u.datas ensures x in u.books.ropes && x.size == |Bytes(u.books, x)| {
      assert Bytes(u.books, x) == Contents(u.books)[x];
    }
  }

  class Data {
    var head: View?
    var tail: View?
    var size: nat

    constructor ()
      ensures head == null && tail == null && size == 0
    {
      head, tail, size := null, null, 0;
    }

    // the loose view is merged into the last one
    method MergeTail(ghost w: World, v: View) returns (ghost u: World)
      requires Wired(w) && this in w.datas && Loose(w.books, v) && Adjacent(tail, v)
      modifies tail`offset, tail`length, v.chunk`retain_count
      ensures v.chunk in w.holders && Mergeable(w, this, v)
      ensures Wired(u)
      ensures u == MergedTail(w, this, v, v.chunk)
    {
      assert ListOk(w.books, this) && ViewOk(w.books, w.holders, v);
      assert Listed(w.books, this, |w.books.ropes[this]| - 1);
      assert ViewOk(w.books, w.holders, tail);
      ghost var t := w.books.text[tail] + w.books.text[v];
      assert t == tail.chunk.data[tail.offset..tail.offset + tail.length + v.length];
      var n := v.length;
      u := DeleteView(w, v);
      u := Resize(u, tail, tail.offset, tail.length + n);
      assert u == ResizedView(DroppedView(w, v, v.chunk), tail, t);
    }

    // the pointers of a view put last
    method LinkTail(view: View)
      requires view.next == null
      modifies `head, `tail, view`prev, One(tail)`next
      ensures head == (if old(tail) == null then view else old(head)) && tail == view
      ensures view != old(tail) ==>
        view.next == null && view.prev == (if old(tail) == null then old(view.prev) else old(tail))
      ensures old(tail) != null && old(tail) != view ==> old(tail).next == view
    {
      if tail != null {
        tail.next := view;
        view.prev := tail;
      } else {
        head := view;
      }
      tail := view;
    }

    // a loose view is put last
    method LinkView(ghost w: World, v: View) returns (ghost u: World)
      requires Wired(w) && this in w.datas && Loose(w.books, v)
      modifies `head, `tail, v`prev, One(tail)`next
      ensures HasRope(w, this) && Wired(u)
      ensures u == PushedView(w, this, v)
    {
      assert ListOk(w.books, this) && ViewOk(w.books, w.holders, v);
      assert tail != null ==> Listed(w.books, this, |w.books.ropes[this]| - 1);
      LinkTail(v);
      u := PushedView(w, this, v);
      PushedViewIsWired(Focus(w, this), v);
    }

    // push_view: merged into the last view if that one ends where this one starts, else put
    // last
    method PlaceView(ghost w: World, v: View) returns (ghost u: World)
      requires Wired(w) && this in w.datas && Loose(w.books, v)
      modifies this, v`prev, One(tail), v.chunk`retain_count
      ensures HasRope(w, this) && v in w.books.text && old(v.chunk) in w.holders
      ensures Wired(u) && size == old(size) + |Text(w, v)|
      ensures old(Adjacent(tail, v)) ==> Mergeable(w, this, v) && u == MergedTail(w, this, v, old(v.chunk))
      ensures !old(Adjacent(tail, v)) ==> u == PushedView(w, this, v)
    {
      assert ListOk(w.books, this) && ViewOk(w.books, w.holders, v);
      size := size + v.length;
      if Adjacent(tail, v) {
        u := MergeTail(w, v);
      } else {
        u := LinkView(w, v);
      }
    }

    // push_view, as far as bytes go
    method PushView(ghost w: World, v: View) returns (ghost u: World)
      requires Wired(w) && this in w.datas && Loose(w.books, v)
      modifies this, v, One(tail), v.chunk`retain_count
      ensures HasRope(w, this) && v in w.books.text
      ensures Wired(u) && size == old(size) + |Text(w, v)|
      ensures Aside(w.books, u.books, this, v) && Grown(w, u) && Grew(w.books, u.books, this)
      ensures Contents(u.books) == (Contents(w.books) - {v})[this := Bytes(w.books, this) + Text(w, v)]
    {
      assert ListOk(w.books, this);
      PushedOk(w.books, this, v);
      PushedAside(w.books, this, v);
      PushedGrew(w.books, this, v);
      if w.books.ropes[this] != [] {
        MergedLastOk(w.books, this, v);
        MergedLastAside(w.books, this, v);
        MergedLastGrew(w.books, this, v);
      }
      u := PlaceView(w, v);
    }

    // push_view of a view taken off some other list
    method Receive(ghost w: World, v: View) returns (ghost u: World)
      requires Wired(w) && this in w.datas && Loose(w.books, v)
      modifies this, w.books.owner.Keys, w.holders.Keys
      ensures HasRope(w, this) && v in w.books.text
      ensures Wired(u) && size == old(size) + |Text(w, v)|
      ensures Aside(w.books, u.books, this, v) && Grown(w, u) && Grew(w.books, u.books, this)
      ensures Contents(u.books) == (Contents(w.books) - {v})[this := Bytes(w.books, this) + Text(w, v)]
    {
      assert tail == null || tail in w.books.owner by { Reach(w, this); }
      assert v.chunk in w.holders by { LooseReach(w, v); }
      u := PushView(w, v);
    }

    // unshift_view of a view taken off some other list
    method ReceiveFirst(ghost w: World, v: View) returns (ghost u: World)
      requires Wired(w) && this in w.datas && Loose(w.books, v)
      modifies this, w.books.owner.Keys, w.holders.Keys
      ensures HasRope(w, this) && v in w.books.text
      ensures Wired(u) && size == old(size) + |Text(w, v)|
      ensures Aside(w.books, u.books, this, v) && Grown(w, u)
      ensures Contents(u.books) == (Contents(w.books) - {v})[this := Text(w, v) + Bytes(w.books, this)]
    {
      assert head == null || head in w.books.owner by { Reach(w, this); }
      assert v.chunk in w.holders by { LooseReach(w, v); }
      u := UnshiftView(w, v);
    }

    // the pointers of the last view taken out
    method UnlinkTail() returns (view: View)
      requires tail != null && tail.prev != tail
      modifies `head, `tail, tail`prev, One(tail.prev)`next
      ensures view == old(tail) && tail == old(tail.prev) && head == (if tail == null then null else old(head))
      ensures view.prev == null && (tail != null ==> tail.next == null)
    {
      view := tail;
      tail := view.prev;
      view.prev := null;
      if tail != null {
        tail.next := null;
      } else {
        head := null;
      }
    }

    // the last view is taken out
    method TakeTail(ghost w: World) returns (view: View, ghost u: World)
      requires Wired(w) && this in w.datas && tail != null
      modifies `head, `tail, tail`prev, One(tail.prev)`next
      ensures HasRope(w, this) && w.books.ropes[this] != [] && Wired(u)
      ensures view == old(tail) == w.books.ropes[this][|w.books.ropes[this]| - 1] && tail == old(tail.prev)
      ensures u == PoppedView(w, this)
    {
      assert ListOk(w.books, this);
      ghost var n := |w.books.ropes[this]| - 1;
      assert LinkOk(w.books.ropes[this], n) && Listed(w.books, this, n);
      assert n > 0 ==> LinkOk(w.books.ropes[this], n - 1) && Listed(w.books, this, n - 1);
      view := UnlinkTail();
      u := PoppedView(w, this);
      PoppedViewIsWired(Focus(w, this), view, tail);
    }

    // the pointers of the first view taken out
    method UnlinkHead() returns (view: View)
      requires head != null && head.next != head
      modifies `head, `tail, head`next, One(head.next)`prev
      ensures view == old(head) && head == old(head.next) && tail == (if head == null then null else old(tail))
      ensures view.next == null && (head != null ==> head.prev == null)
    {
      view := head;
      head := view.next;
      view.next := null;
      if head != null {
        head.prev := null;
      } else {
        tail := null;
      }
    }

    // the first view is taken out
    method TakeHead(ghost w: World) returns (view: View, ghost u: World)
      requires Wired(w) && this in w.datas && head != null
      modifies `head, `tail, head`next, One(head.next)`prev
      ensures HasRope(w, this) && w.books.ropes[this] != [] && Wired(u)
      ensures view == old(head) == w.books.ropes[this][0]
      ensures u == ShiftedView(w, this)
    {
      assert ListOk(w.books, this) && LinkOk(w.books.ropes[this], 0) && Listed(w.books, this, 0);
      assert |w.books.ropes[this]| > 1 ==> LinkOk(w.books.ropes[this], 1) && Listed(w.books, this, 1);
      view := UnlinkHead();
      u := ShiftedView(w, this);
      ShiftedViewIsWired(Focus(w, this), view, head);
    }

    // the pointers of a view put first
    method LinkHead(view: View)
      requires view.prev == null
      modifies `head, `tail, view`next, One(head)`prev
      ensures tail == (if old(head) == null then view else old(tail)) && head == view
      ensures view != old(head) ==>
        view.prev == null && view.next == (if old(head) == null then old(view.next) else old(head))
      ensures old(head) != null && old(head) != view ==> old(head).prev == view
    {
      if head != null {
        head.prev := view;
        view.next := head;
      } else {
        tail := view;
      }
      head := view;
    }

    // a loose view is put first
    method LinkFirst(ghost w: World, v: View) returns (ghost u: World)
      requires Wired(w) && this in w.datas && Loose(w.books, v)
      modifies `head, `tail, v`next, One(head)`prev
      ensures HasRope(w, this) && Wired(u)
      ensures u == UnshiftedView(w, this, v)
    {
      assert ListOk(w.books, this) && ViewOk(w.books, w.holders, v);
      assert head != null ==> Listed(w.books, this, 0);
      LinkHead(v);
      u := UnshiftedView(w, this, v);
      UnshiftedViewIsWired(Focus(w, this), v);
    }

    method PopView(ghost w: World) returns (view: View, ghost u: World)
      requires Wired(w) && this in w.datas && tail != null && size >= tail.length
      modifies this, tail`prev, One(tail.prev)`next
      ensures HasRope(w, this) && w.books.ropes[this] != [] && Wired(u) && Loose(u.books, view)
      ensures view == old(tail) == w.books.ropes[this][|w.books.ropes[this]| - 1] && view in w.books.text
      ensures view in u.books.text && Text(u, view) == Text(w, view) && size == old(size) - |Text(w, view)|
      ensures this in u.books.ropes && u.books.ropes[this] == w.books.ropes[this][..|w.books.ropes[this]| - 1]
      ensures u.books.owner.Keys == w.books.owner.Keys && u.holders == w.holders
      ensures Aside(w.books, u.books, this, view) && Grown(w, u)
      ensures Bytes(w.books, this) == Bytes(u.books, this) + Text(w, view)
      ensures Contents(u.books) == Contents(w.books)[this := Bytes(u.books, this)][view := Text(w, view)]
    {
      assert ListOk(w.books, this);
      assert Listed(w.books, this, |w.books.ropes[this]| - 1) && ViewOk(w.books, w.holders, tail);
      size := size - tail.length;
      view, u := TakeTail(w);
      PoppedOk(w.books, this);
      PoppedAside(w.books, this);
    }

    method ShiftView(ghost w: World) returns (view: View, ghost u: World)
      requires Wired(w) && this in w.datas && head != null && size >= head.length
      modifies this, head`next, One(head.next)`prev
      ensures HasRope(w, this) && w.books.ropes[this] != [] && Wired(u) && Loose(u.books, view)
      ensures view == old(head) == w.books.ropes[this][0] && view in w.books.text
      ensures view in u.books.text && Text(u, view) == Text(w, view) && size == old(size) - |Text(w, view)|
      ensures this in u.books.ropes && u.books.ropes[this] == w.books.ropes[this][1..]
      ensures u.books.owner.Keys == w.books.owner.Keys && u.holders == w.holders
      ensures Aside(w.books, u.books, this, view) && Grown(w, u)
      ensures Bytes(w.books, this) == Text(w, view) + Bytes(u.books, this)
      ensures Contents(u.books) == Contents(w.books)[this := Bytes(u.books, this)][view := Text(w, view)]
    {
      assert ListOk(w.books, this);
      assert Listed(w.books, this, 0) && ViewOk(w.books, w.holders, head);
      size := size - head.length;
      view, u := TakeHead(w);
      ShiftedOk(w.books, this);
      ShiftedAside(w.books, this);
    }

    // the loose view is merged into the first one
    method MergeHead(ghost w: World, v: View) returns (ghost u: World)
      requires Wired(w) && this in w.datas && Loose(w.books, v)
      requires head != null && head.chunk == v.chunk && head.offset == v.offset + v.length
      modifies head`offset, head`length, v.chunk`retain_count
      ensures v.chunk in w.holders && MergeableFirst(w, this, v)
      ensures Wired(u) && u == MergedHead(w, this, v, v.chunk)
    {
      assert ListOk(w.books, this) && ViewOk(w.books, w.holders, v);
      assert Listed(w.books, this, 0);
      assert ViewOk(w.books, w.holders, head);
      ghost var t := w.books.text[v] + w.books.text[head];
      assert t == head.chunk.data[head.offset - v.length..head.offset - v.length + (head.length + v.length)];
      var n := v.length;
      u := DeleteView(w, v);
      u := Resize(u, head, head.offset - n, head.length + n);
      assert u == ResizedView(DroppedView(w, v, v.chunk), head, t);
    }

    method UnshiftView(ghost w: World, v: View) returns (ghost u: World)
      requires Wired(w) && this in w.datas && Loose(w.books, v)
      modifies this, v, One(head), v.chunk`retain_count
      ensures HasRope(w, this) && v in w.books.text && old(v.chunk) in w.holders
      ensures Wired(u) && size == old(size) + |Text(w, v)|
      ensures Aside(w.books, u.books, this, v) && Grown(w, u)
      ensures Contents(u.books) == (Contents(w.books) - {v})[this := Text(w, v) + Bytes(w.books, this)]
    {
      assert ListOk(w.books, this) && ViewOk(w.books, w.holders, v);
      size := size + v.length;
      if head != null && head.chunk == v.chunk && head.offset == v.offset + v.length {
        MergedFirstOk(w.books, this, v);
        MergedFirstAside(w.books, this, v);
        u := MergeHead(w, v);
      } else {
        UnshiftedOk(w.books, this, v);
        UnshiftedAside(w.books, this, v);
        u := LinkFirst(w, v);
      }
    }

    // out.push_view(shift_view())
    method GiveHead(ghost w: World, out: Data) returns (k: nat, ghost u: World)
      requires Wired(w) && this in w.datas && out in w.datas && out != this && head != null && size >= head.length
      modifies this, out, w.books.owner.Keys, w.holders.Keys
      ensures k == old(head.length) && Wired(u) && Grown(w, u) && Moved(w, u, this, out, k)
      ensures size == old(size) - k && out.size == old(out.size) + k
      ensures HasViews(u, out)
      ensures this in u.books.ropes && |u.books.ropes[this]| == |w.books.ropes[this]| - 1
    {
      assert head in w.books.owner && (head.next == null || head.next in w.books.owner) && head !in w.books.ropes by {
        Reach(w, this);
      }
      assert head in w.books.text && head.length == |w.books.text[head]| by { Reach(w, this); }
      assert HasRope(w, out) by { Reach(w, out); }
      k := head.length;
      var view;
      ghost var x;
      view, x := ShiftView(w);
      u := out.Receive(x, view);
      assert Moved(w, u, this, out, k) by { MovedByHead(w, x, u, this, out, view, k); }
    }

    // head->shift(n)
    method CutHead(ghost w: World, n: nat) returns (view: View, ghost t: seq<bv8>, ghost u: World)
      requires Wired(w) && this in w.datas && head != null && n <= head.length
      modifies head, head.chunk
      ensures HasRope(w, this) && Wired(u) && Grown(w, u) && fresh(view) && Loose(u.books, view) && view in u.books.text
      ensures view !in w.books.ropes && head in w.books.owner && u.books.ropes.Keys == w.books.ropes.Keys + {view}
      ensures n <= |Bytes(w.books, this)| && Text(u, view) == Bytes(w.books, this)[..n]
      ensures t == Bytes(w.books, this)[n..] && Contents(u.books) == Contents(w.books)[view := Text(u, view)][this := t]
      ensures u.books.ropes[this] == w.books.ropes[this]
    {
      Reach(w, this);
      view, u := ShiftOff(w, head, n);
      SplitFirstOk(w.books, this, view, n);
      t := Bytes(w.books, this)[n..];
    }

    // out.push_view(head->shift(n))
    method GiveBytes(ghost w: World, n: nat, out: Data) returns (ghost u: World)
      requires Wired(w) && this in w.datas && out in w.datas && out != this && head != null && n <= head.length
      modifies out, w.books.owner.Keys, w.holders.Keys
      ensures Wired(u) && Grown(w, u) && Moved(w, u, this, out, n)
      ensures out.size == old(out.size) + n
      ensures HasViews(u, out)
      ensures this in u.books.ropes && |u.books.ropes[this]| == |w.books.ropes[this]|
    {
      assert head.chunk in w.holders && head in w.books.owner by { Reach(w, this); }
      assert HasRope(w, out) by { Reach(w, out); }
      var view;
      ghost var x;
      ghost var t;
      view, t, x := CutHead(w, n);
      u := out.Receive(x, view);
      MovedByPart(w, x, u, this, out, view, n, t);
    }

    // ----- operations ------------------------------------------------------------------------

    // one round of shift(n, out)
    method ShiftOnce(ghost w: World, n: nat, out: Data) returns (k: nat, ghost u: World)
      requires Wired(w) && this in w.datas && out in w.datas && out != this && head != null
      requires this in w.books.ropes && size == |Bytes(w.books, this)|
      modifies this, out, w.books.owner.Keys, w.holders.Keys
      ensures k == Min(old(head.length), n) && Wired(u) && Grown(w, u) && Moved(w, u, this, out, k)
      ensures size == old(size) - k && out.size == old(out.size) + k
      ensures this in u.books.ropes && (k < n ==> |u.books.ropes[this]| < |w.books.ropes[this]|)
    {
      assert head.length <= |Bytes(w.books, this)| by { HeadFits(w, this); }
      if head.length <= n {
        k, u := GiveHead(w, out);
      } else {
        k := n;
        u := GiveBytes(w, n, out);
        size := size - n;
      }
    }

    // the rounds of shift(n, out)
    method ShiftAll(ghost w: World, n: int, out: Data) returns (ghost taken: nat, ghost u: World)
      requires Wired(w) && this in w.datas && out in w.datas && out != this && HasRope(w, this) && HasRope(w, out)
      requires size == |Bytes(w.books, this)| && out.size == |Bytes(w.books, out)|
      modifies this, out, w.books.owner.Keys, w.holders.Keys
      ensures Wired(u) && Grown(w, u) && Moved(w, u, this, out, taken)
      ensures size == old(size) - taken && out.size == old(out.size) + taken
      ensures taken == Min(if n < 0 then 0 else n, old(size))
    {
      GiveNone(Contents(w.books), this, out);
      u := w;
      taken := 0;
      var left := n;
      while head != null && left > 0
        invariant Wired(u) && Grown(w, u) && this in u.books.ropes
        invariant Moved(w, u, this, out, taken)
        invariant left == n - taken && (taken > 0 ==> left >= 0)
        invariant size == old(size) - taken && out.size == old(out.size) + taken
        decreases left, |u.books.ropes[this]|
      {
        ghost var x := u;
        MovedBytes(w, x, this, out, taken);
        var k;
        k, u := ShiftOnce(x, left, out);
        taken := MovedTrans(w, x, u, this, out, taken, k);
        left := left - k;
      }
      MovedBytes(w, u, this, out, taken);
      assert head == null ==> |Bytes(u.books, this)| == 0 by { Reach(u, this); }
    }

    // shift(n, out)
    method ShiftInto(ghost w: World, n: int, out: Data) returns (ghost u: World)
      requires Ok(w) && this in w.datas && out in w.datas && out != this
      modifies this, out, w.books.owner.Keys, w.holders.Keys
      ensures Ok(u) && Grown(w, u) && HasRope(w, this)
      ensures Moved(w, u, this, out, Min(if n < 0 then 0 else n, |Bytes(w.books, this)|))
    {
      assert HasRope(w, this) by { Reach(w, this); }
      assert HasRope(w, out) by { Reach(w, out); }
      ghost var taken;
      taken, u := ShiftAll(w, n, out);
      MovedIsOk(Focus(w, this), u, out, taken);
    }

    // one round of shift(f, out): what is left of the first view after the scan stays
    method ScanOnce(ghost w: World, n: nat, out: Data) returns (k: nat, ghost u: World)
      requires Wired(w) && this in w.datas && out in w.datas && out != this && head != null && n <= head.length
      requires this in w.books.ropes && size == |Bytes(w.books, this)|
      modifies this, out, w.books.owner.Keys, w.holders.Keys
      ensures k == n && Wired(u) && Grown(w, u) && Moved(w, u, this, out, k)
      ensures size == old(size) - k && out.size == old(out.size) + k
      ensures HasViews(u, out)
      ensures this in u.books.ropes && (n == old(head.length) ==> |u.books.ropes[this]| < |w.books.ropes[this]|)
    {
      assert head.length <= |Bytes(w.books, this)| by { HeadFits(w, this); }
      if n == head.length {
        k, u := GiveHead(w, out);
      } else {
        k := n;
        u := GiveBytes(w, n, out);
        size := size - n;
      }
    }

    // the scan of the first view, after the bytes seen
    method ScanHead(ghost w: World, f: seq<bv8> -> Verdict, seen: seq<bv8>, ghost all: seq<bv8>)
      returns (n: nat, stop: bool, seen': seq<bv8>, ghost total: nat)
      requires Wired(w) && this in w.datas && head != null && HasRope(w, this)
      requires |seen| <= |all| && seen == all[..|seen|] && Bytes(w.books, this) == all[|seen|..]
      ensures n <= head.length && (!stop ==> n == head.length)
      ensures total == |seen| + n <= |all| && seen' == all[..total]
      ensures Taken(f, all, |seen|) == if stop then total else Taken(f, all, total)
    {
      HeadFits(w, this);
      assert head in w.books.owner by { Reach(w, this); }
      var bytes := Shows(w, head);
      assert bytes == all[|seen|..][..|bytes|];
      n, stop := Scan(f, seen, bytes, all);
      seen' := seen + bytes[..n];
      total := |seen| + n;
    }

    // one round of shift(f, out), scan and all
    method ScanStep(ghost w: World, f: seq<bv8> -> Verdict, seen: seq<bv8>, ghost all: seq<bv8>, out: Data)
      returns (stop: bool, seen': seq<bv8>, ghost k: nat, ghost total: nat, ghost u: World)
      requires Wired(w) && this in w.datas && out in w.datas && out != this && head != null && HasRope(w, this)
      requires |seen| <= |all| && seen == all[..|seen|] && Bytes(w.books, this) == all[|seen|..]
      requires size == |Bytes(w.books, this)|
      modifies this, out, w.books.owner.Keys, w.holders.Keys
      ensures total == |seen| + k <= |all| && seen' == all[..total]
      ensures Taken(f, all, |seen|) == if stop then total else Taken(f, all, total)
      ensures Wired(u) && Grown(w, u) && Moved(w, u, this, out, k)
      ensures size == old(size) - k && out.size == old(out.size) + k
      ensures HasViews(u, out)
      ensures this in u.books.ropes && (!stop ==> |u.books.ropes[this]| < |w.books.ropes[this]|)
    {
      var n;
      n, stop, seen', total := ScanHead(w, f, seen, all);
      k, u := ScanOnce(w, n, out);
    }

    // the rounds of shift(f, out)
    method ScanAll(ghost w: World, f: seq<bv8> -> Verdict, out: Data) returns (ghost taken: nat, ghost u: World)
      requires Wired(w) && this in w.datas && out in w.datas && out != this && HasRope(w, this) && HasRope(w, out)
      requires size == |Bytes(w.books, this)| && out.size == |Bytes(w.books, out)|
      modifies this, out, w.books.owner.Keys, w.holders.Keys
      ensures Wired(u) && Grown(w, u) && Moved(w, u, this, out, taken)
      ensures size == old(size) - taken && out.size == old(out.size) + taken
      ensures taken == Taken(f, Bytes(w.books, this), 0)
      ensures old(head) != null ==> HasViews(u, out)
    {
      GiveNone(Contents(w.books), this, out);
      u := w;
      taken := 0;
      var seen, stop := [], false;
      ghost var all, none := Bytes(w.books, this), true;
      while head != null && !stop
        invariant Wired(u) && Grown(w, u) && this in u.books.ropes
        invariant Moved(w, u, this, out, taken)
        invariant if none then head == old(head) && !stop else HasViews(u, out)
        invariant |seen| == taken && seen == all[..taken]
        invariant Taken(f, all, 0) == if stop then taken else Taken(f, all, taken)
        invariant size == old(size) - taken && out.size == old(out.size) + taken
        decreases !stop, |u.books.ropes[this]|
      {
        ghost var x := u;
        MovedBytes(w, x, this, out, taken);
        ghost var k, total;
        stop, seen, k, total, u := ScanStep(x, f, seen, all, out);
        none := false;
        taken := MovedTrans(w, x, u, this, out, taken, k);
      }
      MovedBytes(w, u, this, out, taken);
      Reach(u, this);
    }

    // shift(f, out)
    method ShiftScan(ghost w: World, f: seq<bv8> -> Verdict, out: Data) returns (ghost u: World)
      requires Ok(w) && this in w.datas && out in w.datas && out != this
      modifies this, out, w.books.owner.Keys, w.holders.Keys
      ensures Ok(u) && Grown(w, u) && HasRope(w, this)
      ensures Moved(w, u, this, out, Taken(f, Bytes(w.books, this), 0))
      ensures old(head) != null ==> HasViews(u, out)
    {
      assert HasRope(w, this) by { Reach(w, this); }
      assert HasRope(w, out) by { Reach(w, out); }
      ghost var taken;
      taken, u := ScanAll(w, f, out);
      MovedIsOk(Focus(w, this), u, out, taken);
    }

    // shift_to(f, out): up to and with the first byte that f holds of
    method ShiftTo(ghost w: World, f: seq<bv8> -> bool, out: Data) returns (ghost n: nat, ghost u: World)
      requires Ok(w) && this in w.datas && out in w.datas && out != this
      modifies this, out, w.books.owner.Keys, w.holders.Keys
      ensures Ok(u) && Grown(w, u) && HasRope(w, this)
      ensures Moved(w, u, this, out, n) && FirstTo(f, Bytes(w.books, this), n)
    {
      assert HasRope(w, this) by { Reach(w, this); }
      n := Taken(To(f), Bytes(w.books, this), 0);
      TakenTo(f, Bytes(w.books, this));
      u := ShiftScan(w, To(f), out);
    }

    // shift_while(f, out): as long as f holds
    method ShiftWhile(ghost w: World, f: seq<bv8> -> bool, out: Data) returns (ghost n: nat, ghost u: World)
      requires Ok(w) && this in w.datas && out in w.datas && out != this
      modifies this, out, w.books.owner.Keys, w.holders.Keys
      ensures Ok(u) && Grown(w, u) && HasRope(w, this)
      ensures Moved(w, u, this, out, n) && LastWhile(f, Bytes(w.books, this), n)
      ensures old(head) != null ==> HasViews(u, out)
    {
      assert HasRope(w, this) by { Reach(w, this); }
      n := Taken(While(f), Bytes(w.books, this), 0);
      TakenWhile(f, Bytes(w.books, this));
      u := ShiftScan(w, While(f), out);
    }

    // the last view takes as many of the bytes as fit in its chunk
    method GrowTail(ghost w: World, bytes: seq<bv8>) returns (added: nat, ghost t: seq<bv8>, ghost u: World)
      requires Wired(w) && this in w.datas && tail != null && tail.chunk.retain_count == 1
      modifies `size, tail`length, tail.chunk`data
      ensures Wired(u) && Grown(w, u) && HasRope(w, this) && added <= |bytes|
      ensures t == Bytes(w.books, this) + bytes[..added] && Changed(w, u, this, t)
      ensures size == old(size) + added && added == Min(CHUNK_SIZE - old(tail.offset + tail.length), |bytes|)
    {
      Reach(w, this);
      GrownLastOk(w.books, this, bytes[..0]);
      added, u := GrowView(w, tail, bytes);
      GrownLastOk(w.books, this, bytes[..added]);
      size := size + added;
      t := Bytes(w.books, this) + bytes[..added];
    }

    // a new view of a new chunk with as many of the bytes as fit
    method PushChunk(ghost w: World, bytes: seq<bv8>) returns (added: nat, ghost t: seq<bv8>, ghost u: World)
      requires Wired(w) && this in w.datas
      modifies this, w.books.owner.Keys, w.holders.Keys
      ensures Wired(u) && Grown(w, u) && HasRope(w, this) && added == Min(CHUNK_SIZE, |bytes|) <= |bytes|
      ensures t == Bytes(w.books, this) + bytes[..added] && Changed(w, u, this, t)
      ensures size == old(size) + added
    {
      assert HasRope(w, this) by { Reach(w, this); }
      var view;
      ghost var x, s;
      view, added, s, x := MakeFilled(w, bytes);
      u := Receive(x, view);
      t := Bytes(w.books, this) + s;
      AddedView(w, x, u, this, view, s, t);
    }

    // the rounds of push(data, n) after the last view is full
    method PushChunks(ghost w: World, bytes: seq<bv8>) returns (ghost t: seq<bv8>, ghost u: World)
      requires Wired(w) && this in w.datas && HasRope(w, this) && size == |Bytes(w.books, this)|
      modifies this, w.books.owner.Keys, w.holders.Keys
      ensures t == Bytes(w.books, this) + bytes
      ensures Wired(u) && Grown(w, u) && Changed(w, u, this, t) && size == |t|
    {
      u := w;
      var rest := bytes;
      t := Bytes(w.books, this);
      NotChanged(w, this);
      while |rest| > 0
        invariant Wired(u) && Grown(w, u)
        invariant Changed(w, u, this, t)
        invariant t + rest == Bytes(w.books, this) + bytes && size == |t|
        decreases |rest|
      {
        ghost var x, s := u, t;
        ChangedBytes(w, x, this, s);
        var added;
        added, t, u := PushChunk(x, rest);
        ChangedTrans(w, x, u, this, s, t);
        Regroup(s, rest, added);
        rest := rest[added..];
      }
      assert t + rest == t;
    }

    // push(data, n), pointers only
    method PushRest(ghost w: World, bytes: seq<bv8>) returns (ghost t: seq<bv8>, ghost u: World)
      requires Wired(w) && this in w.datas && HasRope(w, this) && size == |Bytes(w.books, this)|
      modifies this, w.books.owner.Keys, w.holders.Keys
      ensures t == Bytes(w.books, this) + bytes
      ensures Wired(u) && Grown(w, u) && Changed(w, u, this, t) && size == |t|
    {
      assert tail == null || (tail in w.books.owner && tail.chunk in w.holders) by { Reach(w, this); }
      if tail != null && tail.chunk.retain_count == 1 {
        var added;
        ghost var s, x;
        added, s, x := GrowTail(w, bytes);
        ChangedBytes(w, x, this, s);
        Regroup(Bytes(w.books, this), bytes, added);
        t, u := PushChunks(x, bytes[added..]);
        ChangedTrans(w, x, u, this, s, t);
      } else {
        t, u := PushChunks(w, bytes);
      }
    }

    // push(data, n)
    method PushBytes(ghost w: World, bytes: seq<bv8>) returns (ghost t: seq<bv8>, ghost u: World)
      requires Ok(w) && this in w.datas
      modifies this, w.books.owner.Keys, w.holders.Keys
      ensures HasRope(w, this) && t == Bytes(w.books, this) + bytes
      ensures Ok(u) && Grown(w, u) && Changed(w, u, this, t)
    {
      assert HasRope(w, this) by { Reach(w, this); }
      t, u := PushRest(w, bytes);
      ChangedIsOk(Focus(w, this), u, t);
    }

    // push(ch)
    method PushByte(ghost w: World, ch: bv8) returns (ghost t: seq<bv8>, ghost u: World)
      requires Ok(w) && this in w.datas
      modifies this, w.books.owner.Keys, w.holders.Keys
      ensures HasRope(w, this) && t == Bytes(w.books, this) + [ch]
      ensures Ok(u) && Grown(w, u) && Changed(w, u, this, t)
    {
      assert HasRope(w, this) && (tail == null || (tail in w.books.owner && tail.chunk in w.holders)) by {
        Reach(w, this);
      }
      assert size == |Bytes(w.books, this)|;
      var added := 0;
      if tail != null && tail.chunk.retain_count == 1 && tail.offset + tail.length < CHUNK_SIZE {
        added, t, u := GrowTail(w, [ch]);
      } else {
        added, t, u := PushChunk(w, [ch]);
      }
      assert [ch][..added] == [ch];
      ChangedIsOk(Focus(w, this), u, t);
    }

    // out.unshift_view(pop_view())
    method GiveTail(ghost w: World, out: Data) returns (k: nat, ghost u: World)
      requires Wired(w) && this in w.datas && out in w.datas && out != this && tail != null && size >= tail.length
      modifies this, out, w.books.owner.Keys, w.holders.Keys
      ensures k == old(tail.length) && Wired(u) && Grown(w, u) && MovedBack(w, u, this, out, k)
      ensures size == old(size) - k && out.size == old(out.size) + k
      ensures this in u.books.ropes && |u.books.ropes[this]| == |w.books.ropes[this]| - 1
    {
      assert tail in w.books.owner && (tail.prev == null || tail.prev in w.books.owner) && tail !in w.books.ropes by {
        Reach(w, this);
      }
      assert tail in w.books.text && tail.length == |w.books.text[tail]| by { Reach(w, this); }
      assert HasRope(w, out) by { Reach(w, out); }
      k := tail.length;
      var view;
      ghost var x;
      view, x := PopView(w);
      u := out.ReceiveFirst(x, view);
      assert MovedBack(w, u, this, out, k) by { MovedByTail(w, x, u, this, out, view, k); }
    }

    // tail->pop(n)
    method CutTail(ghost w: World, n: nat) returns (view: View, ghost t: seq<bv8>, ghost u: World)
      requires Wired(w) && this in w.datas && tail != null && n <= tail.length
      modifies tail, tail.chunk
      ensures HasRope(w, this) && Wired(u) && Grown(w, u) && fresh(view) && Loose(u.books, view) && view in u.books.text
      ensures view !in w.books.ropes && tail in w.books.owner && u.books.ropes.Keys == w.books.ropes.Keys + {view}
      ensures n <= |Bytes(w.books, this)| && Text(u, view) == Bytes(w.books, this)[|Bytes(w.books, this)| - n..]
      ensures t == Bytes(w.books, this)[..|Bytes(w.books, this)| - n]
      ensures Contents(u.books) == Contents(w.books)[this := t][view := Text(u, view)]
      ensures u.books.ropes[this] == w.books.ropes[this]
    {
      Reach(w, this);
      view, u := PopOff(w, tail, n);
      SplitLastOk(w.books, this, tail, view, n, u.books);
      t := Bytes(w.books, this)[..|Bytes(w.books, this)| - n];
    }

    // out.unshift_view(tail->pop(n))
    method GiveLastBytes(ghost w: World, n: nat, out: Data) returns (ghost u: World)
      requires Wired(w) && this in w.datas && out in w.datas && out != this && tail != null && n <= tail.length
      modifies out, w.books.owner.Keys, w.holders.Keys
      ensures Wired(u) && Grown(w, u) && MovedBack(w, u, this, out, n)
      ensures out.size == old(out.size) + n
      ensures this in u.books.ropes && |u.books.ropes[this]| == |w.books.ropes[this]|
    {
      assert tail.chunk in w.holders && tail in w.books.owner by { Reach(w, this); }
      assert HasRope(w, out) by { Reach(w, out); }
      var view;
      ghost var x;
      ghost var t;
      view, t, x := CutTail(w, n);
      u := out.ReceiveFirst(x, view);
      MovedByLastPart(w, x, u, this, out, view, n, t);
    }

    // one round of pop(n, out)
    method PopOnce(ghost w: World, n: nat, out: Data) returns (k: nat, ghost u: World)
      requires Wired(w) && this in w.datas && out in w.datas && out != this && tail != null
      requires this in w.books.ropes && size == |Bytes(w.books, this)|
      modifies this, out, w.books.owner.Keys, w.holders.Keys
      ensures k == Min(old(tail.length), n) && Wired(u) && Grown(w, u) && MovedBack(w, u, this, out, k)
      ensures size == old(size) - k && out.size == old(out.size) + k
      ensures this in u.books.ropes && (k < n ==> |u.books.ropes[this]| < |w.books.ropes[this]|)
    {
      assert tail.length <= |Bytes(w.books, this)| by { TailFits(w, this); }
      if tail.length <= n {
        k, u := GiveTail(w, out);
      } else {
        k := n;
        u := GiveLastBytes(w, n, out);
        size := size - n;
      }
    }

    // the next round of pop(n, out), when that many bytes were taken
    method PopNext(ghost w: World, ghost x: World, left: nat, out: Data, ghost taken: nat)
      returns (k: nat, ghost sum: nat, ghost u: World)
      requires MovedBack(w, x, this, out, taken) && Wired(x) && this in x.datas && out in x.datas && out != this
      requires tail != null && this in x.books.ropes && left > 0 && size == |Bytes(w.books, this)| - taken
      modifies this, out, x.books.owner.Keys, x.holders.Keys
      ensures k == Min(old(tail.length), left) && Wired(u) && Grown(x, u)
      ensures sum == taken + k && MovedBack(w, u, this, out, sum)
      ensures size == old(size) - k && out.size == old(out.size) + k
      ensures this in u.books.ropes && (k < left ==> |u.books.ropes[this]| < |x.books.ropes[this]|)
    {
      MovedBackBytes(w, x, this, out, taken);
      k, u := PopOnce(x, left, out);
      sum := MovedBackTrans(w, x, u, this, out, taken, k);
    }

    // the rounds of pop(n, out)
    method PopAll(ghost w: World, n: int, out: Data) returns (ghost taken: nat, ghost u: World)
      requires Wired(w) && this in w.datas && out in w.datas && out != this && HasRope(w, this) && HasRope(w, out)
      requires size == |Bytes(w.books, this)| && out.size == |Bytes(w.books, out)|
      modifies this, out, w.books.owner.Keys, w.holders.Keys
      ensures Wired(u) && Grown(w, u) && MovedBack(w, u, this, out, taken)
      ensures size == old(size) - taken && out.size == old(out.size) + taken
      ensures taken == Min(if n < 0 then 0 else n, old(size))
    {
      GiveBackNone(Contents(w.books), this, out);
      u := w;
      taken := 0;
      var left := n;
      while tail != null && left > 0
        invariant Wired(u) && Grown(w, u) && this in u.books.ropes
        invariant MovedBack(w, u, this, out, taken)
        invariant left == n - taken && (taken > 0 ==> left >= 0)
        invariant size == old(size) - taken && out.size == old(out.size) + taken
        decreases left, |u.books.ropes[this]|
      {
        var k;
        k, taken, u := PopNext(w, u, left, out, taken);
        left := left - k;
      }
      MovedBackBytes(w, u, this, out, taken);
      NoTailNoBytes(u);
    }

    lemma NoTailNoBytes(w: World)
      requires Wired(w) && this in w.datas && this in w.books.ropes
      ensures tail == null ==> |Bytes(w.books, this)| == 0
    {
      Reach(w, this);
    }

    // pop(n, out)
    method PopInto(ghost w: World, n: int, out: Data) returns (ghost u: World)
      requires Ok(w) && this in w.datas && out in w.datas && out != this
      modifies this, out, w.books.owner.Keys, w.holders.Keys
      ensures Ok(u) && Grown(w, u) && HasRope(w, this)
      ensures MovedBack(w, u, this, out, Min(if n < 0 then 0 else n, |Bytes(w.books, this)|))
    {
      assert HasRope(w, this) by { Reach(w, this); }
      assert HasRope(w, out) by { Reach(w, out); }
      ghost var taken;
      taken, u := PopAll(w, n, out);
      MovedBackIsOk(Focus(w, this), u, out, taken);
    }

    // delete shift_view()
    method DropHead(ghost w: World) returns (bytes: seq<bv8>, ghost t: seq<bv8>, ghost u: World)
      requires Wired(w) && this in w.datas && head != null && size >= head.length
      modifies this, w.books.owner.Keys, w.holders.Keys
      ensures Wired(u) && Grown(w, u) && HasRope(w, this) && |bytes| == old(head.length)
      ensures Bytes(w.books, this) == bytes + t && Changed(w, u, this, t)
      ensures size == old(size) - |bytes|
      ensures this in u.books.ropes && |u.books.ropes[this]| < |w.books.ropes[this]|
    {
      assert head in w.books.owner && (head.next == null || head.next in w.books.owner) && head !in w.books.ropes by {
        Reach(w, this);
      }
      assert head in w.books.text && head.length == |w.books.text[head]| by { Reach(w, this); }
      bytes := Shows(w, head);
      var view;
      ghost var x;
      view, x := ShiftView(w);
      t := Bytes(x.books, this);
      u := Discard(x, view);
      assert Changed(w, u, this, t) by { TakenOff(w, x, u, this, view, Text(w, view), t); }
    }

    // delete head->shift(n)
    method DropBytes(ghost w: World, n: nat) returns (bytes: seq<bv8>, ghost t: seq<bv8>, ghost u: World)
      requires Wired(w) && this in w.datas && head != null && n <= head.length
      modifies w.books.owner.Keys, w.holders.Keys
      ensures Wired(u) && Grown(w, u) && HasRope(w, this) && |bytes| == n
      ensures Bytes(w.books, this) == bytes + t && Changed(w, u, this, t)
    {
      assert head.chunk in w.holders && head in w.books.owner by { Reach(w, this); }
      HeadFits(w, this);
      bytes := Shows(w, head)[..n];
      var view;
      ghost var x;
      view, t, x := CutHead(w, n);
      Halves(Bytes(w.books, this), n);
      assert bytes == Text(x, view);
      u := Discard(x, view);
      TakenOff(w, x, u, this, view, Text(x, view), t);
    }

    // one round of shift(n, bytes)
    method DropOnce(ghost w: World, n: nat) returns (bytes: seq<bv8>, ghost t: seq<bv8>, ghost u: World)
      requires Wired(w) && this in w.datas && head != null && this in w.books.ropes && size == |Bytes(w.books, this)|
      modifies this, w.books.owner.Keys, w.holders.Keys
      ensures Wired(u) && Grown(w, u) && HasRope(w, this) && |bytes| == Min(old(head.length), n)
      ensures Bytes(w.books, this) == bytes + t && Changed(w, u, this, t)
      ensures size == old(size) - |bytes|
      ensures this in u.books.ropes && (|bytes| < n ==> |u.books.ropes[this]| < |w.books.ropes[this]|)
    {
      assert head.length <= |Bytes(w.books, this)| by { HeadFits(w, this); }
      if head.length <= n {
        bytes, t, u := DropHead(w);
      } else {
        bytes, t, u := DropBytes(w, n);
        size := size - n;
        ChangedBytes(w, u, this, t);
      }
    }

    // the rounds of shift(n, bytes)
    method DropAll(ghost w: World, n: int) returns (bytes: seq<bv8>, ghost t: seq<bv8>, ghost u: World)
      requires Wired(w) && this in w.datas && HasRope(w, this) && size == |Bytes(w.books, this)|
      modifies this, w.books.owner.Keys, w.holders.Keys
      ensures Wired(u) && Grown(w, u)
      ensures Bytes(w.books, this) == bytes + t && Changed(w, u, this, t) && size == |t|
      ensures |bytes| == Min(if n < 0 then 0 else n, old(size))
    {
      u := w;
      bytes := [];
      t := Bytes(w.books, this);
      NotChanged(w, this);
      while head != null && |bytes| < n
        invariant Wired(u) && Grown(w, u) && this in u.books.ropes
        invariant Changed(w, u, this, t)
        invariant Bytes(w.books, this) == bytes + t && size == |t| && (n < 0 ==> bytes == [])
        invariant (n >= 0 ==> |bytes| <= n)
        decreases n - |bytes|, |u.books.ropes[this]|
      {
        ghost var x, s := u, t;
        ChangedBytes(w, x, this, s);
        var some;
        some, t, u := DropOnce(x, n - |bytes|);
        ChangedTrans(w, x, u, this, s, t);
        Assoc(bytes, some, t);
        bytes := bytes + some;
      }
      ChangedBytes(w, u, this, t);
      assert head == null ==> |Bytes(u.books, this)| == 0 by { Reach(u, this); }
    }

    // shift(n, bytes); shift(n) is the same without a look at the bytes
    method Shift(ghost w: World, n: int) returns (bytes: seq<bv8>, ghost t: seq<bv8>, ghost u: World)
      requires Ok(w) && this in w.datas
      modifies this, w.books.owner.Keys, w.holders.Keys
      ensures Ok(u) && Grown(w, u) && HasRope(w, this)
      ensures Bytes(w.books, this) == bytes + t && Changed(w, u, this, t)
      ensures |bytes| == Min(if n < 0 then 0 else n, |Bytes(w.books, this)|)
    {
      assert HasRope(w, this) by { Reach(w, this); }
      bytes, t, u := DropAll(w, n);
      ChangedIsOk(Focus(w, this), u, t);
    }

    // delete the views, the first one first
    method DropViews(ghost w: World) returns (ghost t: seq<bv8>, ghost u: World)
      requires Wired(w) && this in w.datas && HasRope(w, this) && size == |Bytes(w.books, this)|
      modifies this, w.books.owner.Keys, w.holders.Keys
      ensures Wired(u) && Grown(w, u) && Changed(w, u, this, t) && t == [] && size == 0
      ensures HasRope(u, this) && u.books.ropes[this] == []
    {
      u := w;
      t := Bytes(w.books, this);
      NotChanged(w, this);
      while head != null
        invariant Wired(u) && Grown(w, u) && this in u.books.ropes
        invariant Changed(w, u, this, t) && size == |t|
        decreases |u.books.ropes[this]|
      {
        ghost var x, s := u, t;
        ChangedBytes(w, x, this, s);
        HeadFits(x, this);
        var bytes;
        bytes, t, u := DropHead(x);
        ChangedTrans(w, x, u, this, s, t);
      }
      Reach(u, this);
      ChangedBytes(w, u, this, t);
    }

    // clear()
    method Clear(ghost w: World) returns (ghost u: World)
      requires Ok(w) && this in w.datas
      modifies this, w.books.owner.Keys, w.holders.Keys
      ensures Ok(u) && Grown(w, u) && Changed(w, u, this, [])
      ensures HasRope(u, this) && u.books.ropes[this] == []
    {
      assert HasRope(w, this) by { Reach(w, this); }
      ghost var t;
      t, u := DropViews(w);
      ChangedIsOk(Focus(w, this), u, t);
    }

    // ~Data()
    method Close(ghost w: World) returns (ghost u: World)
      requires Ok(w) && this in w.datas
      modifies this, w.books.owner.Keys, w.holders.Keys
      ensures BooksOk(w.books) && Ok(u) && Contents(u.books) == Contents(w.books) - {this}
      ensures u.datas == w.datas - {this} && u.shareds == w.shareds
    {
      u := Clear(w);
      ChangedAndClosed(w, u, this);
      WithoutDataIsOk(u, this);
      u := WithoutData(u, this);
    }

    // operator=(const Data &)
    method Assign(ghost w: World, data: Data) returns (ghost u: World)
      requires Ok(w) && this in w.datas && data in w.datas
      modifies this, w.books.owner.Keys, w.holders.Keys
      ensures HasRope(w, data) && Ok(u) && Grown(w, u) && Changed(w, u, this, Bytes(w.books, data))
    {
      assert HasRope(w, this) by { Reach(w, this); }
      assert HasRope(w, data) by { Reach(w, data); }
      if data == this {
        u := w;
        NotChanged(w, this);
      } else {
        ghost var x := Clear(w);
        ClearedBytes(w, x, this, data);
        ghost var t;
        t, u := Push(x, data);
        ChangedTrans(w, x, u, this, [], t);
      }
    }

    // delete pop_view()
    method DropTail(ghost w: World) returns (ghost s: seq<bv8>, ghost t: seq<bv8>, ghost u: World)
      requires Wired(w) && this in w.datas && tail != null && size >= tail.length
      modifies this, w.books.owner.Keys, w.holders.Keys
      ensures Wired(u) && Grown(w, u) && HasRope(w, this) && |s| == old(tail.length)
      ensures Bytes(w.books, this) == t + s && Changed(w, u, this, t)
      ensures size == old(size) - |s|
      ensures this in u.books.ropes && |u.books.ropes[this]| < |w.books.ropes[this]|
    {
      assert tail in w.books.owner && (tail.prev == null || tail.prev in w.books.owner) && tail !in w.books.ropes by {
        Reach(w, this);
      }
      assert tail in w.books.text && tail.length == |w.books.text[tail]| by { Reach(w, this); }
      var view;
      ghost var x;
      view, x := PopView(w);
      s, t := Text(w, view), Bytes(x.books, this);
      u := Discard(x, view);
      assert Changed(w, u, this, t) by { TakenOff(w, x, u, this, view, s, t); }
    }

    // delete tail->pop(n)
    method DropLastBytes(ghost w: World, n: nat) returns (ghost s: seq<bv8>, ghost t: seq<bv8>, ghost u: World)
      requires Wired(w) && this in w.datas && tail != null && n <= tail.length
      modifies w.books.owner.Keys, w.holders.Keys
      ensures Wired(u) && Grown(w, u) && HasRope(w, this) && |s| == n
      ensures Bytes(w.books, this) == t + s && Changed(w, u, this, t)
    {
      assert tail.chunk in w.holders && tail in w.books.owner by { Reach(w, this); }
      var view;
      ghost var x;
      view, t, x := CutTail(w, n);
      s := Text(x, view);
      Halves(Bytes(w.books, this), |t|);
      u := Discard(x, view);
      TakenOff(w, x, u, this, view, Text(x, view), t);
    }

    // one round of pop(n)
    method DropTailOnce(ghost w: World, n: nat) returns (k: nat, ghost s: seq<bv8>, ghost t: seq<bv8>, ghost u: World)
      requires Wired(w) && this in w.datas && tail != null && this in w.books.ropes && size == |Bytes(w.books, this)|
      modifies this, w.books.owner.Keys, w.holders.Keys
      ensures Wired(u) && Grown(w, u) && HasRope(w, this) && k == |s| == Min(old(tail.length), n)
      ensures Bytes(w.books, this) == t + s && Changed(w, u, this, t)
      ensures size == old(size) - |s|
      ensures this in u.books.ropes && (k < n ==> |u.books.ropes[this]| < |w.books.ropes[this]|)
    {
      assert tail.length <= |Bytes(w.books, this)| by { TailFits(w, this); }
      if tail.length <= n {
        k := tail.length;
        s, t, u := DropTail(w);
      } else {
        k := n;
        s, t, u := DropLastBytes(w, n);
        size := size - n;
        ChangedBytes(w, u, this, t);
      }
    }

    // the rounds of pop(n)
    method DropTails(ghost w: World, n: int) returns (ghost s: seq<bv8>, ghost t: seq<bv8>, ghost u: World)
      requires Wired(w) && this in w.datas && HasRope(w, this) && size == |Bytes(w.books, this)|
      modifies this, w.books.owner.Keys, w.holders.Keys
      ensures Wired(u) && Grown(w, u)
      ensures Bytes(w.books, this) == t + s && Changed(w, u, this, t) && size == |t|
      ensures |s| == Min(if n < 0 then 0 else n, old(size))
    {
      u := w;
      s, t := [], Bytes(w.books, this);
      NotChanged(w, this);
      var left := n;
      while tail != null && left > 0
        invariant Wired(u) && Grown(w, u) && this in u.books.ropes
        invariant Changed(w, u, this, t)
        invariant Bytes(w.books, this) == t + s && size == |t| && left == n - |s| && (s != [] ==> left >= 0)
        decreases left, |u.books.ropes[this]|
      {
        ghost var x, t0 := u, t;
        ChangedBytes(w, x, this, t0);
        var k;
        ghost var some;
        k, some, t, u := DropTailOnce(x, left);
        ChangedTrans(w, x, u, this, t0, t);
        Assoc(t, some, s);
        s := some + s;
        left := left - k;
      }
      ChangedBytes(w, u, this, t);
      assert tail == null ==> |Bytes(u.books, this)| == 0 by { Reach(u, this); }
    }

    // pop(n)
    method Pop(ghost w: World, n: int) returns (ghost s: seq<bv8>, ghost t: seq<bv8>, ghost u: World)
      requires Ok(w) && this in w.datas
      modifies this, w.books.owner.Keys, w.holders.Keys
      ensures Ok(u) && Grown(w, u) && HasRope(w, this)
      ensures Bytes(w.books, this) == t + s && Changed(w, u, this, t)
      ensures |s| == Min(if n < 0 then 0 else n, |Bytes(w.books, this)|)
    {
      assert HasRope(w, this) by { Reach(w, this); }
      s, t, u := DropTails(w, n);
      ChangedIsOk(Focus(w, this), u, t);
    }

    // push_view(new View(v->chunk, v->offset + from, to - from))
    method PushPart(ghost w: World, v: View, from: nat, to: nat) returns (ghost t: seq<bv8>, ghost u: World)
      requires Wired(w) && this in w.datas && v in w.books.owner && from <= to <= v.length
      modifies this, w.books.owner.Keys, w.holders.Keys
      ensures Wired(u) && Grown(w, u) && HasRope(w, this) && v in w.books.text && to <= |Text(w, v)|
      ensures t == Bytes(w.books, this) + Text(w, v)[from..to] && Changed(w, u, this, t)
      ensures size == old(size) + to - from
      ensures Beside(w.books, u.books, this) && Grew(w.books, u.books, this)
    {
      assert HasRope(w, this) by { Reach(w, this); }
      var view;
      ghost var x, s;
      view, s, x := MakePart(w, v, from, to);
      u := Receive(x, view);
      t := Bytes(w.books, this) + s;
      AddedView(w, x, u, this, view, s, t);
      BesideNew(w.books, u.books, this, view, s);
      GrewNew(w.books, u.books, this, view, s);
    }

    // push_view(new View(view)) for the view of number i of o
    method CopyNext(ghost w: World, view: View, ghost o: object, ghost i: nat)
      returns (next: View?, ghost t: seq<bv8>, ghost u: World)
      requires Wired(w) && this in w.datas && Lists(w, o) && o != this
      requires o in w.books.ropes && i < |w.books.ropes[o]| && view == w.books.ropes[o][i]
      modifies this, w.books.owner.Keys, w.holders.Keys
      ensures Wired(u) && Grown(w, u) && HasRope(w, this) && view in w.books.text
      ensures t == Bytes(w.books, this) + Text(w, view) && Changed(w, u, this, t)
      ensures size == old(size) + |Text(w, view)|
      ensures Beside(w.books, u.books, this) && Grew(w.books, u.books, this)
      ensures next == NthView(w.books.ropes[o], i + 1)
    {
      NextView(w, o, i);
      t, u := PushPart(w, view, 0, view.length);
      assert Text(w, view)[0..|Text(w, view)|] == Text(w, view);
      NextView(u, o, i);
      next := view.next;
    }

    // push_view(new View(view)) for all views of o, from the first one on
    method CopyViews(ghost w: World, first: View?, ghost o: object) returns (ghost t: seq<bv8>, ghost u: World)
      requires Wired(w) && this in w.datas && HasRope(w, this) && Lists(w, o) && o != this && o in w.books.ropes
      requires first == NthView(w.books.ropes[o], 0)
      requires size == |Bytes(w.books, this)|
      modifies this, w.books.owner.Keys, w.holders.Keys
      ensures Wired(u) && Grown(w, u) && t == Bytes(w.books, this) + Bytes(w.books, o) && Changed(w, u, this, t)
      ensures size == |t|
    {
      ghost var vs := w.books.ropes[o];
      u := w;
      t := Bytes(w.books, this);
      ghost var i := 0;
      CopiedNone(w, this, o);
      var view := first;
      while view != null
        invariant Wired(u) && Grown(w, u)
        invariant Copied(w, u, this, o, i, t)
        invariant view == NthView(vs, i) && size == |t|
        decreases |vs| - i
      {
        ghost var x, s := u, t;
        ChangedBytes(w, x, this, s);
        view, t, u := CopyNext(x, view, o, i);
        i := CopiedNext(w, x, u, this, o, i, s, t);
      }
      CopiedAll(w, u, this, o, i, t);
    }

    // push(const Data &)
    method Push(ghost w: World, data: Data) returns (ghost t: seq<bv8>, ghost u: World)
      requires Ok(w) && this in w.datas && data in w.datas
      modifies this, w.books.owner.Keys, w.holders.Keys
      ensures HasRope(w, this) && HasRope(w, data)
      ensures t == if data == this then Bytes(w.books, this) else Bytes(w.books, this) + Bytes(w.books, data)
      ensures Ok(u) && Grown(w, u) && Changed(w, u, this, t)
    {
      assert HasRope(w, this) by { Reach(w, this); }
      Reach(w, data);
      if data == this {
        t, u := Bytes(w.books, this), w;
        NotChanged(w, this);
      } else {
        t, u := CopyViews(w, data.head, data);
        ChangedIsOk(Focus(w, this), u, t);
      }
    }

    // the pointers of push(Data &&)
    method LinkAll(data: Data)
      requires data != this && data.head != null && data.tail != null && tail != data.head
      modifies `head, `tail, data`head, data`tail, data.head`prev, One(tail)`next
      ensures data.head == null && data.tail == null && tail == old(data.tail)
      ensures head == (if old(tail) == null then old(data.head) else old(head))
      ensures old(data.head).prev == old(if tail == null then data.head.prev else tail)
      ensures old(tail) != null ==> old(tail).next == old(data.head)
    {
      if tail != null {
        data.head.prev := tail;
        tail.next := data.head;
      } else {
        head := data.head;
      }
      tail := data.tail;
      data.head, data.tail := null, null;
    }

    // push(Data &&) of a list that is not empty
    method Append(ghost w: World, data: Data) returns (ghost u: World)
      requires Wired(w) && this in w.datas && data in w.datas && data != this && data.head != null
      modifies `head, `tail, data`head, data`tail, w.books.owner.Keys
      ensures HasRope(w, this) && HasRope(w, data) && u == JoinedViews(w, this, data) && Wired(u)
    {
      assert HasRope(w, this) && (tail == null || (tail in w.books.owner && w.books.owner[tail] == this)) by {
        Reach(w, this);
      }
      assert HasRope(w, data) && data.tail != null by { Reach(w, data); }
      assert data.head in w.books.owner && w.books.owner[data.head] == data by {
        Reach(w, data);
      }
      assert data.head.prev == null by {
        assert ListOk(w.books, data) && LinkOk(w.books.ropes[data], 0);
      }
      LinkAll(data);
      u := JoinedViews(w, this, data);
      JoinedViewsIsWired(Pair(w, this, data));
    }

    // push(Data &&) of a list that is not empty, as far as bytes go
    method AppendBytes(ghost w: World, data: Data, ghost k: nat) returns (ghost u: World)
      requires Wired(w) && this in w.datas && data in w.datas && data != this && data.head != null
      requires HasRope(w, data) && k == |Bytes(w.books, data)|
      modifies `head, `tail, data`head, data`tail, w.books.owner.Keys
      ensures Wired(u) && Grown(w, u) && Moved(w, u, data, this, k)
    {
      u := Append(w, data);
      JoinedMoves(w, u, this, data, k);
    }

    method TakeSize(data: Data)
      requires data != this
      modifies `size, data`size
      ensures size == old(size) + old(data.size) && data.size == 0
    {
      size := size + data.size;
      data.size := 0;
    }

    // push(Data &&), pointers and sizes
    method AbsorbList(ghost w: World, data: Data) returns (ghost all: nat, ghost u: World)
      requires Wired(w) && this in w.datas && data in w.datas && data != this && data.head != null
      requires HasRope(w, data) && data.size == |Bytes(w.books, data)|
      modifies this, data, w.books.owner.Keys
      ensures Wired(u) && Grown(w, u) && all == old(data.size) && Moved(w, u, data, this, all)
      ensures size == old(size) + all && data.size == 0
    {
      all := data.size;
      TakeSize(data);
      u := AppendBytes(w, data, all);
    }

    // push(Data &&)
    method Absorb(ghost w: World, data: Data) returns (ghost all: nat, ghost u: World)
      requires Ok(w) && this in w.datas && data in w.datas
      modifies this, data, w.books.owner.Keys
      ensures HasRope(w, data) && all == (if data == this then 0 else |Bytes(w.books, data)|)
      ensures Ok(u) && Grown(w, u) && (if data == this then u == w else Moved(w, u, data, this, all))
    {
      assert HasRope(w, this) by { Reach(w, this); }
      Reach(w, data);
      if data == this {
        u := w;
        all := 0;
      } else if data.head == null {
        u := w;
        all := 0;
        GiveNone(Contents(w.books), data, this);
      } else {
        all, u := AbsorbList(w, data);
        MovedIsOk(Focus(w, data), u, this, all);
      }
    }

    // operator=(Data &&)
    method Replace(ghost w: World, data: Data) returns (ghost u: World)
      requires Ok(w) && this in w.datas && data in w.datas
      modifies this, data, w.books.owner.Keys, w.holders.Keys
      ensures HasRope(w, data) && Ok(u) && Grown(w, u)
      ensures if data == this then u == w
        else Contents(u.books) == Contents(w.books)[this := Bytes(w.books, data)][data := []]
    {
      assert HasRope(w, this) by { Reach(w, this); }
      assert HasRope(w, data) by { Reach(w, data); }
      if data == this {
        u := w;
      } else {
        ghost var x := Clear(w);
        ClearedBytes(w, x, this, data);
        ghost var all;
        all, u := Absorb(x, data);
        GivenAll(w, x, u, data, this, all);
      }
    }

    // SharedData::to_data
    method PushShared(ghost w: World, shared: SharedData) returns (ghost t: seq<bv8>, ghost u: World)
      requires Ok(w) && this in w.datas && shared in w.shareds
      modifies this, w.books.owner.Keys, w.holders.Keys
      ensures HasRope(w, this) && HasBytes(w, shared) && t == Bytes(w.books, this) + Bytes(w.books, shared)
      ensures Ok(u) && Grown(w, u) && Changed(w, u, this, t)
    {
      assert HasRope(w, this) by { Reach(w, this); }
      assert SharedOk(w.books, shared);
      t, u := CopyViews(w, shared.views, shared);
      ChangedIsOk(Focus(w, this), u, t);
    }

    // delete pop_view(), exactly
    method DropLast(ghost w: World) returns (ghost v: View, ghost u: World)
      requires Wired(w) && this in w.datas && tail != null
      modifies `head, `tail, tail`prev, One(tail.prev)`next, tail.chunk`retain_count
      ensures HasRope(w, this) && w.books.ropes[this] != []
      ensures v == old(tail) == w.books.ropes[this][|w.books.ropes[this]| - 1]
      ensures old(tail.chunk) in w.holders && Wired(u)
      ensures u == DroppedView(PoppedView(w, this), v, old(tail.chunk)) && tail == old(tail.prev)
    {
      Reach(w, this);
      PoppedOk(w.books, this);
      var view;
      ghost var x;
      view, x := TakeTail(w);
      v := view;
      u := DeleteView(x, view);
    }

    // clone the last view and delete it, sizes aside
    method CloneLast(ghost w: World) returns (ghost v: View, clone: View, ghost u: World)
      requires Wired(w) && this in w.datas && tail != null
      modifies `head, `tail, w.books.owner.Keys, w.holders.Keys
      ensures HasRope(w, this) && v == old(tail) && v in w.books.text && v in w.books.owner && v !in w.books.ropes
      ensures w.books.ropes[this] != [] && v == w.books.ropes[this][|w.books.ropes[this]| - 1]
      ensures fresh(clone) && fresh(clone.chunk) && clone !in w.books.owner && clone !in w.books.ropes && clone != v
      ensures Wired(u) && u.datas == w.datas && u.shareds == w.shareds
      ensures u.books == Dropped(Popped(Created(w.books, clone, Text(w, v)), this), v)
      ensures u.holders.Keys <= w.holders.Keys + {clone.chunk} && clone.chunk in u.holders
      ensures u.holders[clone.chunk] == {clone}
      ensures clone.offset == 0 && clone.length == |Text(w, v)| && clone.chunk.retain_count == 1
    {
      Reach(w, this);
      ghost var x;
      ghost var chunk := tail.chunk;
      clone, x := CloneView(w, tail);
      v, u := DropLast(x);
      HeldThenReleased(w.holders, clone.chunk, clone, chunk, v);
    }

    // push_view of a view with a chunk of its own, the size aside
    method LinkSole(ghost w: World, v: View) returns (ghost u: World)
      requires Wired(w) && this in w.datas && Loose(w.books, v) && v.chunk in w.holders && w.holders[v.chunk] == {v}
      modifies `head, `tail, w.books.owner.Keys
      ensures HasRope(w, this) && Wired(u) && u == PushedView(w, this, v)
      ensures v.chunk == old(v.chunk) && v.offset == old(v.offset) && v.length == old(v.length)
    {
      SoleIsApart(w, this, v);
      u := LinkView(w, v);
    }

    // the last view gives way to a clone with a chunk of its own; the size stays
    method Unshare(ghost w: World) returns (ghost v: View, clone: View, ghost u: World)
      requires Wired(w) && this in w.datas && tail != null
      modifies `head, `tail, w.books.owner.Keys, w.holders.Keys
      ensures HasRope(w, this) && v == old(tail) && v in w.books.text && v in w.books.owner && v !in w.books.ropes
      ensures w.books.ropes[this] != [] && v == w.books.ropes[this][|w.books.ropes[this]| - 1]
      ensures fresh(clone) && fresh(clone.chunk) && clone !in w.books.owner && clone !in w.books.ropes && clone != v
      ensures Wired(u) && u.datas == w.datas && u.shareds == w.shareds && u.books == Replaced(w.books, this, v, clone)
      ensures u.holders.Keys <= w.holders.Keys + {clone.chunk}
      ensures clone.offset == 0 && clone.length == |Text(w, v)| && clone.chunk.retain_count == 1
    {
      ghost var y;
      v, clone, y := CloneLast(w);
      assert Loose(y.books, clone) by { ReplacedOk(w.books, this, v, clone); }
      u := LinkSole(y, clone);
    }

    // the last view gives way to a clone, as far as bytes go
    method Renew(ghost w: World, ghost occ: nat) returns (ghost u: World)
      requires Wired(w) && this in w.datas && tail != null && HasRope(w, this)
      modifies `head, `tail, w.books.owner.Keys, w.holders.Keys
      ensures Wired(u) && Grown(w, u) && Changed(w, u, this, Bytes(w.books, this))
      ensures Packed(w.books, u.books, this, occ) && Beside(w.books, u.books, this)
      ensures |u.books.ropes[this]| == |w.books.ropes[this]|
      ensures tail != null && tail.offset == 0 && tail.chunk.retain_count == 1 && tail.length == old(tail.length)
    {
      assert tail.length == |w.books.text[tail]| by { Reach(w, this); }
      ghost var v;
      var clone;
      v, clone, u := Unshare(w);
      assert tail == clone by {
        ReplacedOk(w.books, this, v, clone);
        Reach(u, this);
      }
      RenewedOk(w, u, this, v, clone, occ);
    }

    // the last view is made the only one of its chunk, and its first
    method OwnTail(ghost w: World, ghost occ: nat) returns (ghost u: World)
      requires Wired(w) && this in w.datas && tail != null && HasRope(w, this)
      modifies `head, `tail, w.books.owner.Keys, w.holders.Keys
      ensures Wired(u) && Grown(w, u) && Changed(w, u, this, Bytes(w.books, this))
      ensures Packed(w.books, u.books, this, occ) && Beside(w.books, u.books, this)
      ensures |u.books.ropes[this]| == |w.books.ropes[this]|
      ensures tail != null && tail.offset == 0 && tail.chunk.retain_count == 1 && tail.length == old(tail.length)
    {
      if tail.offset > 0 || tail.chunk.retain_count > 1 {
        u := Renew(w, occ);
      } else {
        u := w;
        NotChanged(w, this);
        PackedSame(w.books, this, occ);
        assert tail.chunk.retain_count > 0 by {
          Reach(w, this);
          assert ChunkOk(w.books, w.holders, tail.chunk);
        }
      }
    }

    // memcpy to the end of the last view, which has room for it
    method FillTail(ghost w: World, bytes: seq<bv8>, ghost occ: nat) returns (ghost t: seq<bv8>, ghost u: World)
      requires Wired(w) && this in w.datas && HasRope(w, this) && tail != null && tail.offset == 0
      requires tail.chunk.retain_count == 1
      requires tail.length + |bytes| <= CHUNK_SIZE
      modifies `size, w.books.owner.Keys, w.holders.Keys
      ensures Wired(u) && Grown(w, u) && t == Bytes(w.books, this) + bytes && Changed(w, u, this, t)
      ensures Packed(w.books, u.books, this, occ) && Beside(w.books, u.books, this) && size == old(size) + |bytes|
      ensures u.books.ropes[this] != [] && LastWidth(u.books, this) == old(tail.length) + |bytes|
      ensures |u.books.ropes[this]| == |w.books.ropes[this]|
    {
      Reach(w, this);
      GrownLastOk(w.books, this, bytes);
      GrownPacked(w.books, this, bytes, occ);
      size := size + |bytes|;
      var added;
      added, u := GrowView(w, tail, bytes);
      assert bytes[..added] == bytes;
      t := Bytes(w.books, this) + bytes;
    }

    // as many bytes of the view as there is room for go to the last view of this
    method PackSome(ghost w: World, view: View, n: nat, ghost occ: nat) returns (ghost t: seq<bv8>, ghost u: World)
      requires Wired(w) && this in w.datas && HasRope(w, this) && tail != null
      requires view in w.books.owner && w.books.owner[view] != this && n <= view.length && tail.length + n <= CHUNK_SIZE
      modifies this, w.books.owner.Keys, w.holders.Keys
      ensures Wired(u) && Grown(w, u) && view in w.books.text && n <= |Text(w, view)|
      ensures t == Bytes(w.books, this) + Text(w, view)[..n] && Changed(w, u, this, t)
      ensures Packed(w.books, u.books, this, occ) && Beside(w.books, u.books, this) && size == old(size) + n
      ensures u.books.ropes[this] != [] && LastWidth(u.books, this) == old(tail.length) + n
      ensures |u.books.ropes[this]| == |w.books.ropes[this]|
    {
      ghost var x;
      assert view.length == |w.books.text[view]| by { assert ViewOk(w.books, w.holders, view); }
      x := OwnTail(w, occ);
      assert SameShown(w.books, x.books, view);
      ChangedBytes(w, x, this, Bytes(w.books, this));
      var bytes := Shows(x, view)[..n];
      t, u := FillTail(x, bytes, occ);
      ChangedTrans(w, x, u, this, Bytes(w.books, this), t);
      PackedTrans(w.books, x.books, u.books, this, occ);
      BesideTrans(w.books, x.books, u.books, this);
    }

    // push_view of the bytes of a view from n on
    method PushLeft(ghost w: World, view: View, n: nat) returns (ghost t: seq<bv8>, ghost u: World)
      requires Wired(w) && this in w.datas && view in w.books.owner && view in w.books.text && n <= |Text(w, view)|
      modifies this, w.books.owner.Keys, w.holders.Keys
      ensures Wired(u) && Grown(w, u) && HasRope(w, this)
      ensures t == Bytes(w.books, this) + Text(w, view)[n..] && Changed(w, u, this, t)
      ensures size == old(size) + |Text(w, view)| - n
      ensures Beside(w.books, u.books, this) && Grew(w.books, u.books, this)
    {
      assert view.length == |Text(w, view)| by { assert ViewOk(w.books, w.holders, view); }
      t, u := PushPart(w, view, n, view.length);
      assert Text(w, view)[n..|Text(w, view)|] == Text(w, view)[n..];
    }

    // push_view of what is left of a view when the last view is full
    method PackRest(ghost w: World, ghost x: World, view: View, n: nat, ghost s: seq<bv8>)
      returns (ghost t: seq<bv8>, ghost u: World)
      requires Wired(x) && this in x.datas && this in w.books.ropes && this in x.books.ropes
      requires |x.books.ropes[this]| == |w.books.ropes[this]| > 0
      requires view in x.books.owner && view in x.books.text && n <= |Text(x, view)|
      requires Changed(w, x, this, s) && Packed(w.books, x.books, this, CHUNK_SIZE) && Beside(w.books, x.books, this)
      requires LastWidth(x.books, this) == CHUNK_SIZE <= LastWidth(w.books, this) + |Text(x, view)|
      modifies this, x.books.owner.Keys, x.holders.Keys
      ensures Wired(u) && Grown(x, u)
      ensures t == s + Text(x, view)[n..] && Changed(w, u, this, t)
      ensures Packed(w.books, u.books, this, CHUNK_SIZE) && Beside(w.books, u.books, this)
      ensures LastFilled(w.books, u.books, this, |Text(x, view)|)
      ensures size == old(size) + |Text(x, view)| - n
    {
      ChangedBytes(w, x, this, s);
      t, u := PushLeft(x, view, n);
      PackedMore(w, x, u, this, s, t, CHUNK_SIZE);
      StillFilled(w, x, u, this, |Text(x, view)|);
    }

    // a view that goes to the room of the last view, and what does not fit after it
    method PackSplit(ghost w: World, view: View) returns (ghost t: seq<bv8>, ghost u: World)
      requires Wired(w) && this in w.datas && HasRope(w, this) && tail != null
      requires tail.length <= CHUNK_SIZE && tail.length == LastWidth(w.books, this) && w.books.ropes[this] != []
      requires view in w.books.owner && w.books.owner[view] != this && view in w.books.text
      requires view.length == |Text(w, view)|
      modifies this, w.books.owner.Keys, w.holders.Keys
      ensures Wired(u) && Grown(w, u)
      ensures t == Bytes(w.books, this) + Text(w, view) && Changed(w, u, this, t)
      ensures Packed(w.books, u.books, this, CHUNK_SIZE) && Beside(w.books, u.books, this)
      ensures LastFilled(w.books, u.books, this, |Text(w, view)|)
      ensures size == old(size) + |Text(w, view)|
    {
      var n := Min(view.length, CHUNK_SIZE - tail.length);
      ghost var all := Text(w, view);
      ghost var s, x;
      var more := n < view.length;
      s, x := PackSome(w, view, n, CHUNK_SIZE);
      if more {
        assert SameShown(w.books, x.books, view);
        t, u := PackRest(w, x, view, n, s);
        Regroup(Bytes(w.books, this), all, n);
      } else {
        assert all[..n] == all;
        t, u := s, x;
      }
    }

    // push_view(new View(view))
    method PackWhole(ghost w: World, view: View) returns (ghost t: seq<bv8>, ghost u: World)
      requires Wired(w) && this in w.datas && HasRope(w, this)
      requires view in w.books.owner && w.books.owner[view] != this && view in w.books.text
      requires view.length == |Text(w, view)|
      modifies this, w.books.owner.Keys, w.holders.Keys
      ensures Wired(u) && Grown(w, u)
      ensures t == Bytes(w.books, this) + Text(w, view) && Changed(w, u, this, t)
      ensures Grew(w.books, u.books, this) && Beside(w.books, u.books, this)
      ensures size == old(size) + |Text(w, view)|
    {
      ghost var all := Text(w, view);
      t, u := PushPart(w, view, 0, view.length);
      assert all[0..|all|] == all;
    }

    // one round of pack: what fits goes to a last view that is not full enough, or has room for
    // all of it, and otherwise the view is pushed
    method PackView(ghost w: World, view: View, occ: nat) returns (ghost t: seq<bv8>, ghost u: World)
      requires Wired(w) && this in w.datas && HasRope(w, this) && occ <= CHUNK_SIZE
      requires view in w.books.owner && w.books.owner[view] != this && view in w.books.text
      requires view.length == |Text(w, view)|
      modifies this, w.books.owner.Keys, w.holders.Keys
      ensures Wired(u) && Grown(w, u)
      ensures t == Bytes(w.books, this) + Text(w, view) && Changed(w, u, this, t)
      ensures Packed(w.books, u.books, this, occ) && Beside(w.books, u.books, this)
      ensures if w.books.ropes[this] != []
              && (LastWidth(w.books, this) < occ || LastWidth(w.books, this) + |Text(w, view)| <= CHUNK_SIZE) then
          Packed(w.books, u.books, this, CHUNK_SIZE) && LastFilled(w.books, u.books, this, |Text(w, view)|)
        else
          Grew(w.books, u.books, this)
      ensures size == old(size) + |Text(w, view)|
    {
      TailWidth(w, this);
      assert (tail == null <==> w.books.ropes[this] == []) by { Reach(w, this); }
      if tail != null && (tail.length < occ || view.length + tail.length <= CHUNK_SIZE) {
        t, u := PackSplit(w, view);
        PackedForLess(w.books, u.books, this, CHUNK_SIZE, occ);
      } else {
        t, u := PackWhole(w, view);
        PackedByGrowth(w.books, u.books, this, occ);
      }
    }

    // the next round of pack, after i of them
    method PackNext(ghost w: World, ghost x: World, data: Data, view: View, occ: nat, ghost i: nat, ghost s: seq<bv8>)
      returns (next: View?, ghost j: nat, ghost t: seq<bv8>, ghost u: World)
      requires BooksOk(w.books) && Wired(x) && this in x.datas && occ <= CHUNK_SIZE && HasRope(w, this)
      requires Copied(w, x, this, data, i, s) && Lists(x, data) && i < |w.books.ropes[data]|
      requires Packed(w.books, x.books, this, occ) && Cuts(w.books, x.books, this, data, i)
      requires view == NthView(w.books.ropes[data], i) && size == |s|
      modifies this, x.books.owner.Keys, x.holders.Keys
      ensures Wired(u) && Grown(x, u) && j == i + 1 && size == |t|
      ensures Copied(w, u, this, data, j, t) && Packed(w.books, u.books, this, occ)
      ensures Cuts(w.books, u.books, this, data, j)
      ensures next == NthView(w.books.ropes[data], j)
    {
      ChangedBytes(w, x, this, s);
      NextView(x, data, i);
      t, u := PackView(x, view, occ);
      NthBytes(w.books, data, i);
      CutsNext(w.books, x.books, u.books, this, data, i);
      PackedTrans(w.books, x.books, u.books, this, occ);
      NextView(u, data, i);
      next := view.next;
      j := CopiedNext(w, x, u, this, data, i, s, t);
    }

    // the rounds of pack
    method PackViews(ghost w: World, data: Data, occ: nat) returns (ghost t: seq<bv8>, ghost u: World)
      requires Wired(w) && this in w.datas && data in w.datas && data != this && occ <= CHUNK_SIZE
      requires HasRope(w, this) && HasRope(w, data) && size == |Bytes(w.books, this)|
      modifies this, w.books.owner.Keys, w.holders.Keys
      ensures Wired(u) && Grown(w, u)
      ensures t == Bytes(w.books, this) + Bytes(w.books, data) && Changed(w, u, this, t) && size == |t|
      ensures Packed(w.books, u.books, this, occ)
      ensures Cuts(w.books, u.books, this, data, |w.books.ropes[data]|)
    {
      Reach(w, data);
      ghost var vs, i := w.books.ropes[data], 0;
      u := w;
      t := Bytes(w.books, this);
      CopiedNone(w, this, data);
      PackedSame(w.books, this, occ);
      var view := data.head;
      while view != null
        invariant Wired(u) && Grown(w, u)
        invariant Copied(w, u, this, data, i, t) && Packed(w.books, u.books, this, occ)
        invariant Cuts(w.books, u.books, this, data, i)
        invariant view == NthView(vs, i) && size == |t|
        decreases |vs| - i
      {
        view, i, t, u := PackNext(w, u, data, view, occ, i, t);
      }
      CopiedAll(w, u, this, data, i, t);
    }

    // pack(data, vacancy)
    method Pack(ghost w: World, data: Data, vacancy: real) returns (ghost t: seq<bv8>, ghost u: World)
      requires Ok(w) && this in w.datas && data in w.datas && 0.0 <= vacancy <= 1.0
      modifies this, w.books.owner.Keys, w.holders.Keys
      ensures HasRope(w, this) && HasRope(w, data)
      ensures t == if data == this then Bytes(w.books, this) else Bytes(w.books, this) + Bytes(w.books, data)
      ensures Ok(u) && Grown(w, u) && Changed(w, u, this, t)
      ensures data != this ==>
        && (forall occ: nat :: occ as real < CHUNK_SIZE as real * (1.0 - vacancy) + 1.0 ==>
             Packed(w.books, u.books, this, occ))
        && Cuts(w.books, u.books, this, data, |w.books.ropes[data]|)
    {
      assert HasRope(w, this) by { Reach(w, this); }
      assert HasRope(w, data) by { Reach(w, data); }
      if data == this {
        t, u := Bytes(w.books, this), w;
        NotChanged(w, this);
      } else {
        t, u := PackViews(w, data, Occupancy(vacancy));
        ChangedIsOk(Focus(w, this), u, t);
        forall occ: nat | occ as real < CHUNK_SIZE as real * (1.0 - vacancy) + 1.0
          ensures Packed(w.books, u.books, this, occ)
        {
          PackedForLess(w.books, u.books, this, Occupancy(vacancy), occ);
        }
      }
    }
  }

  class SharedData {
    var views: View?

    constructor ()
      ensures views == null
    {
      views := null;
    }

    // *p = view, with p the end of the list
    method Link(ghost w: World, last: View?, v: View) returns (ghost u: World)
      requires Wired(w) && this in w.shareds && Loose(w.books, v) && HasBytes(w, this)
      requires last == LastView(w.books.ropes[this])
      modifies `views, One(last)`next
      ensures Wired(u) && u == SharedView(w, this, v)
    {
      assert SharedOk(w.books, this) && ViewOk(w.books, w.holders, v);
      assert last != null ==> Listed(w.books, this, |w.books.ropes[this]| - 1);
      if last != null {
        last.next := v;
      } else {
        views := v;
      }
      u := SharedView(w, this, v);
      SharedViewIsWired(Share(w, this, last), v);
    }

    // *p = view, as far as bytes go
    method Receive(ghost w: World, last: View?, v: View) returns (ghost u: World)
      requires Wired(w) && this in w.shareds && Loose(w.books, v) && HasBytes(w, this)
      requires last == LastView(w.books.ropes[this])
      modifies `views, w.books.owner.Keys
      ensures Wired(u) && v in w.books.text && Aside(w.books, u.books, this, v) && Grown(w, u)
      ensures Contents(u.books) == (Contents(w.books) - {v})[this := Bytes(w.books, this) + Text(w, v)]
      ensures this in u.books.ropes && u.books.ropes[this] == w.books.ropes[this] + [v]
    {
      assert last != null ==> last in w.books.owner by {
        assert last != null ==> Listed(w.books, this, |w.books.ropes[this]| - 1);
      }
      PushedOk(w.books, this, v);
      PushedAside(w.books, this, v);
      u := Link(w, last, v);
    }

    // *p = new View(v)
    method Add(ghost w: World, last: View?, v: View) returns (r: View, ghost t: seq<bv8>, ghost u: World)
      requires Wired(w) && this in w.shareds && HasBytes(w, this) && v in w.books.owner
      requires last == LastView(w.books.ropes[this])
      modifies `views, w.books.owner.Keys, w.holders.Keys
      ensures Wired(u) && Grown(w, u) && v in w.books.text
      ensures t == Bytes(w.books, this) + Text(w, v) && Changed(w, u, this, t)
      ensures Beside(w.books, u.books, this)
      ensures this in u.books.ropes && u.books.ropes[this] == w.books.ropes[this] + [r]
    {
      ghost var x, s;
      r, s, x := MakeCopy(w, v);
      u := Receive(x, last, r);
      t := Bytes(w.books, this) + s;
      assert Changed(w, u, this, t) by {
        AddedView(w, x, u, this, r, s, t);
      }
      assert Beside(w.books, u.books, this) by {
        BesideNew(w.books, u.books, this, r, s);
      }
    }

    // *p = new View(v), for view number i of data
    method AddNext(ghost w: World, last: View?, view: View, data: Data, ghost i: nat)
      returns (r: View, next: View?, ghost t: seq<bv8>, ghost u: World)
      requires Wired(w) && this in w.shareds && HasBytes(w, this) && data in w.datas && HasRope(w, data)
      requires i < |w.books.ropes[data]| && view == w.books.ropes[data][i]
      requires last == LastView(w.books.ropes[this])
      modifies `views, w.books.owner.Keys, w.holders.Keys
      ensures Wired(u) && Grown(w, u) && view in w.books.text
      ensures t == Bytes(w.books, this) + Text(w, view) && Changed(w, u, this, t)
      ensures Beside(w.books, u.books, this)
      ensures this in u.books.ropes && r == LastView(u.books.ropes[this])
      ensures next == NthView(w.books.ropes[data], i + 1)
    {
      NextView(w, data, i);
      r, t, u := Add(w, last, view);
      NextView(u, data, i);
      next := view.next;
    }

    // the views of SharedData(data), from the first one on
    method CopyViews(ghost w: World, data: Data) returns (ghost t: seq<bv8>, ghost u: World)
      requires Wired(w) && this in w.shareds && HasBytes(w, this) && w.books.ropes[this] == [] && data in w.datas
      modifies `views, w.books.owner.Keys, w.holders.Keys
      ensures Wired(u) && Grown(w, u) && HasRope(w, data) && t == Bytes(w.books, data) && Changed(w, u, this, t)
    {
      Reach(w, data);
      u := w;
      ghost var vs, i := w.books.ropes[data], 0;
      t := Bytes(w.books, this);
      CopiedNone(w, this, data);
      var view, last: View? := data.head, null;
      while view != null
        invariant Wired(u) && Grown(w, u)
        invariant Copied(w, u, this, data, i, t) && this in u.books.ropes
        invariant view == NthView(vs, i) && last == LastView(u.books.ropes[this])
        decreases |vs| - i
      {
        ghost var x, s := u, t;
        ChangedBytes(w, x, this, s);
        last, view, t, u := AddNext(x, last, view, data, i);
        i := CopiedNext(w, x, u, this, data, i, s, t);
      }
      CopiedAll(w, u, this, data, i, t);
    }

    // the pointers of the first view taken out
    method Unlink() returns (view: View)
      requires views != null && views.next != views
      modifies `views, views`next, views`prev
      ensures view == old(views) && views == old(views.next) && view.next == null && view.prev == null
    {
      view := views;
      views := view.next;
      view.prev, view.next := null, null;
    }

    // the first view is taken out
    method TakeFirst(ghost w: World) returns (view: View, ghost u: World)
      requires Wired(w) && this in w.shareds && views != null
      modifies `views, views`next, views`prev
      ensures HasBytes(w, this) && w.books.ropes[this] != [] && Wired(u)
      ensures view == old(views) == w.books.ropes[this][0]
      ensures u == UnsharedView(w, this)
    {
      assert SharedOk(w.books, this) && NextOk(w.books.ropes[this], 0) && Listed(w.books, this, 0);
      assert |w.books.ropes[this]| > 1 ==> Listed(w.books, this, 1);
      view := Unlink();
      u := UnsharedView(w, this);
      UnsharedViewIsWired(Share(w, this, view), view);
    }

    // delete the first view
    method DropFirst(ghost w: World) returns (ghost t: seq<bv8>, ghost u: World)
      requires Wired(w) && this in w.shareds && views != null
      modifies `views, w.books.owner.Keys, w.holders.Keys
      ensures Wired(u) && Grown(w, u) && Changed(w, u, this, t) && w.books.ropes[this] != []
      ensures this in u.books.ropes && u.books.ropes[this] == w.books.ropes[this][1..]
    {
      assert SharedOk(w.books, this) && Listed(w.books, this, 0);
      ShiftedOk(w.books, this);
      var view;
      ghost var x;
      view, x := TakeFirst(w);
      t := Bytes(x.books, this);
      u := Discard(x, view);
      OwnersAreNoViews(w.books, this, view);
      TakenOff(w, x, u, this, view, Text(w, view), t);
    }

    // ~SharedData()
    method Close(ghost w: World) returns (ghost u: World)
      requires Ok(w) && this in w.shareds
      modifies `views, w.books.owner.Keys, w.holders.Keys
      ensures BooksOk(w.books) && Ok(u) && Contents(u.books) == Contents(w.books) - {this}
      ensures u.datas == w.datas && u.shareds == w.shareds - {this}
    {
      ghost var t;
      t, u := DropViews(w);
      SharedIsOk(w, u, this, t);
      ChangedAndClosed(w, u, this);
      WithoutSharedIsOk(u, this);
      u := WithoutShared(u, this);
    }

    method DropViews(ghost w: World) returns (ghost t: seq<bv8>, ghost u: World)
      requires Wired(w) && this in w.shareds
      modifies `views, w.books.owner.Keys, w.holders.Keys
      ensures HasBytes(w, this) && Wired(u) && Grown(w, u) && Changed(w, u, this, t) && t == []
      ensures HasBytes(u, this) && u.books.ropes[this] == []
    {
      assert SharedOk(w.books, this);
      u := w;
      t := Bytes(w.books, this);
      NotChanged(w, this);
      while views != null
        invariant Wired(u) && Grown(w, u) && this in u.books.ropes && this in u.shareds
        invariant Changed(w, u, this, t)
        decreases |u.books.ropes[this]|
      {
        ghost var x, s := u, t;
        assert SharedOk(x.books, this);
        t, u := DropFirst(x);
        ChangedTrans(w, x, u, this, s, t);
      }
      assert SharedOk(u.books, this);
      ChangedBytes(w, u, this, t);
    }

    method Fill(ghost w: World, data: Data) returns (ghost t: seq<bv8>, ghost u: World)
      requires Ok(w) && this in w.shareds && HasBytes(w, this) && w.books.ropes[this] == [] && data in w.datas
      modifies `views, w.books.owner.Keys, w.holders.Keys
      ensures Ok(u) && Grown(w, u) && HasRope(w, data) && t == Bytes(w.books, data) && Changed(w, u, this, t)
    {
      t, u := CopyViews(w, data);
      SharedIsOk(w, u, this, t);
    }
  }

  // ----- reading ---------------------------------------------------------------------------

  // Bytes number k to m of d have been read to the end of out.
  ghost predicate ReadSoFar(w: World, u: World, d: Data, out: Data, k: nat, m: nat, t: seq<bv8>) {
    && HasRope(w, d) && HasRope(w, out) && Changed(w, u, out, t) && Beside(w.books, u.books, out)
    && k <= m <= |Bytes(w.books, d)| && t == Bytes(w.books, out) + Bytes(w.books, d)[k..m]
  }

  lemma ReadNothing(w: World, d: Data, out: Data, k: nat)
    requires HasRope(w, d) && HasRope(w, out) && k <= |Bytes(w.books, d)|
    ensures ReadSoFar(w, w, d, out, k, k, Bytes(w.books, out))
  {
    NotChanged(w, out);
    PackedSame(w.books, out, 0);
    assert Bytes(w.books, d)[k..k] == [];
    assert Bytes(w.books, out) + [] == Bytes(w.books, out);
  }

  lemma ReadMore(w: World, x: World, u: World, d: Data, out: Data, j: nat, k: nat, m: nat, s: seq<bv8>, t: seq<bv8>)
    requires ReadSoFar(w, x, d, out, j, k, s) && k <= m <= |Bytes(w.books, d)| && HasBytes(x, out)
    requires t == Bytes(x.books, out) + Bytes(w.books, d)[k..m] && Changed(x, u, out, t)
    requires Beside(x.books, u.books, out)
    ensures ReadSoFar(w, u, d, out, j, m, t)
  {
    ChangedBytes(w, x, out, s);
    ChangedTrans(w, x, u, out, s, t);
    BesideTrans(w.books, x.books, u.books, out);
    var all := Bytes(w.books, d);
    assert all[j..m] == all[j..k] + all[k..m];
    Assoc(Bytes(w.books, out), all[j..k], all[k..m]);
  }

  function Ints(s: seq<bv8>): seq<int> {
    seq(|s|, i requires 0 <= i < |s| => s[i] as int)
  }

  lemma IntsMore(s: seq<bv8>, k: nat)
    ensures k < |s| ==> Ints(s[..k + 1]) == Ints(s[..k]) + [s[k] as int]
  {
  }

  // How many of the first i views of o show nothing.
  ghost function Empties(b: Books, o: object, i: nat): nat
    requires o in b.ropes && i <= |b.ropes[o]|
  {
    if i == 0 then 0 else Empties(b, o, i - 1) + if Width(b, o, i - 1) == 0 then 1 else 0
  }

  lemma {:induction false} NoneEmpty(b: Books, o: object, i: nat)
    requires o in b.ropes && i <= |b.ropes[o]|
    ensures Empties(b, o, i) == 0 <==> forall j :: 0 <= j < i ==> Width(b, o, j) > 0
  {
    if i > 0 {
      NoneEmpty(b, o, i - 1);
    }
  }

  // What is found in the chunk of a view, or after its end.
  function Found(v: View, at: nat, stray: bv8): int
    reads v, v.chunk
  {
    if at < |v.chunk.data| then v.chunk.data[at] as int else stray as int
  }

  class Reader {
    var view: View?
    var offset: nat
    var position: int

    constructor (data: Data)
      ensures view == data.head && offset == 0 && position == 0
    {
      view, offset, position := data.head, 0, 0;
    }

    // The reader is at view number i of d, before byte number k.
    ghost predicate At(w: World, d: Data, i: nat, k: nat)
      reads this
    {
      && HasRope(w, d) && i <= |w.books.ropes[d]| && view == NthView(w.books.ropes[d], i)
      && k == Before(w.books, d, i) + offset
      && (offset == 0 || (i < |w.books.ropes[d]| && offset < Width(w.books, d, i)))
    }

    // get(): the next byte if the view that the reader is at shows any, and otherwise whatever
    // the chunk has where the view is, or, at the end of the chunk, whatever comes after it
    method Get(ghost w: World, d: Data, stray: bv8, ghost i: nat, ghost k: nat) returns (c: int, ghost j: nat)
      requires Wired(w) && d in w.datas && At(w, d, i, k)
      modifies this
      ensures At(w, d, j, if old(view) != null && Width(w.books, d, i) > 0 then k + 1 else k)
      ensures old(view) == null ==> c == -1 && view == null && i == |w.books.ropes[d]| && position == old(position)
      ensures old(view) != null ==>
        i < |w.books.ropes[d]| && position == old(position) + 1 && c == old(Found(view, view.offset + offset, stray))
      ensures old(view) != null && Width(w.books, d, i) > 0 ==>
        && k < |Bytes(w.books, d)| && c == Bytes(w.books, d)[k] as int && old(view.offset + offset) < CHUNK_SIZE
        && (j == i || j == i + 1)
      ensures old(view) != null && Width(w.books, d, i) == 0 ==> j == i + 1
    {
      NthBytes(w.books, d, i);
      NextView(w, d, i);
      j := i;
      if view == null {
        c := -1;
      } else {
        assert ViewOk(w.books, w.holders, view);
        assert offset < view.length ==> w.books.text[view][offset] == view.chunk.data[view.offset + offset];
        c := Found(view, view.offset + offset, stray);
        offset := offset + 1;
        if offset >= view.length {
          NthBytes(w.books, d, i + 1);
          view := view.next;
          offset := 0;
          j := i + 1;
        }
        position := position + 1;
      }
    }

    // get() until it returns -1: one number for each byte, and one more for each view that
    // shows nothing, so that these are the bytes exactly if there is no such view
    method GetAll(ghost w: World, d: Data, stray: bv8) returns (out: seq<int>)
      requires Wired(w) && d in w.datas && At(w, d, 0, 0)
      modifies this
      ensures |out| == |Bytes(w.books, d)| + Empties(w.books, d, |w.books.ropes[d]|)
      ensures out == Ints(Bytes(w.books, d)) <==> forall i :: 0 <= i < |w.books.ropes[d]| ==> Width(w.books, d, i) > 0
    {
      ghost var i, k, n := 0, 0, |w.books.ropes[d]|;
      out := [];
      NthBytes(w.books, d, 0);
      while view != null
        invariant At(w, d, i, k) && k <= |Bytes(w.books, d)|
        invariant |out| == k + Empties(w.books, d, i)
        invariant Empties(w.books, d, i) == 0 ==> out == Ints(Bytes(w.books, d)[..k])
        decreases |Bytes(w.books, d)| - k + n - i
      {
        var c;
        ghost var i0 := i;
        c, i := Get(w, d, stray, i, k);
        IntsMore(Bytes(w.books, d), k);
        k := if Width(w.books, d, i0) > 0 then k + 1 else k;
        out := out + [c];
      }
      NthBytes(w.books, d, n);
      NextView(w, d, i);
      assert Bytes(w.books, d)[..k] == Bytes(w.books, d);
      NoneEmpty(w.books, d, n);
    }

    // one round of skip(n)
    method SkipOnce(ghost w: World, d: Data, n: nat, ghost i: nat, ghost k: nat)
      returns (some: nat, ghost j: nat, ghost m: nat)
      requires Wired(w) && d in w.datas && At(w, d, i, k) && view != null && n > 0
      modifies this
      ensures position == old(position) && some <= n && m == k + some <= |Bytes(w.books, d)| && At(w, d, j, m)
      ensures i <= j <= |w.books.ropes[d]| && (some < n ==> i < j)
    {
      NthBytes(w.books, d, i);
      NextView(w, d, i);
      var a := view.length - offset;
      j := i;
      if a <= n {
        NthBytes(w.books, d, i + 1);
        some := a;
        view := view.next;
        offset := 0;
        j := i + 1;
      } else {
        some := n;
        offset := offset + n;
      }
      m := k + some;
    }

    // skip(n)
    method Skip(ghost w: World, d: Data, n: int, ghost i0: nat, ghost k0: nat) returns (done: nat, ghost i: nat)
      requires Wired(w) && d in w.datas && At(w, d, i0, k0)
      modifies this
      ensures k0 <= |Bytes(w.books, d)| && done == Min(if n < 0 then 0 else n, |Bytes(w.books, d)| - k0)
      ensures At(w, d, i, k0 + done) && position == old(position) + done
    {
      i := i0;
      done := 0;
      ghost var k := k0;
      NthBytes(w.books, d, i);
      while done < n && view != null
        invariant At(w, d, i, k) && k == k0 + done && position == old(position)
        invariant if n < 0 then done == 0 else done <= n
        decreases |w.books.ropes[d]| - i, n - done
      {
        var some;
        some, i, k := SkipOnce(w, d, n - done, i, k);
        done := done + some;
      }
      NthBytes(w.books, d, i);
      position := position + done;
    }

    // past `done` bytes of the view, or to the next one
    method MoveOn(ghost w: World, d: Data, length: nat, next: View?, done: nat, ghost i: nat, ghost k: nat,
                  ghost m: nat)
      returns (ghost j: nat)
      requires m == k + done && At(w, d, i, k) && i < |w.books.ropes[d]| && length == Width(w.books, d, i)
      requires next == NthView(w.books.ropes[d], i + 1) && offset + done <= length
      modifies this
      ensures position == old(position) + done && At(w, d, j, m)
      ensures old(offset) + done == length ==> j == i + 1
    {
      NthBytes(w.books, d, i);
      NthBytes(w.books, d, i + 1);
      j := i;
      if offset + done == length {
        view := next;
        offset := 0;
        j := i + 1;
      } else {
        offset := offset + done;
      }
      position := position + done;
    }

    // the push_view of one round of read(n, out)
    method GiveOnce(ghost w: World, d: Data, out: Data, n: nat, ghost i: nat, ghost k: nat)
      returns (done: nat, length: nat, next: View?, ghost m: nat, ghost t: seq<bv8>, ghost u: World)
      requires Wired(w) && d in w.datas && out in w.datas && d != out && At(w, d, i, k) && view != null
      modifies out, w.books.owner.Keys, w.holders.Keys
      ensures Wired(u) && Grown(w, u) && HasRope(w, out) && Beside(w.books, u.books, out)
      ensures i < |w.books.ropes[d]| && length == Width(w.books, d, i) && next == NthView(w.books.ropes[d], i + 1)
      ensures offset <= length && done == Min(length - offset, n) && m == k + done <= |Bytes(w.books, d)|
      ensures t == Bytes(w.books, out) + Bytes(w.books, d)[k..m] && Changed(w, u, out, t)
      ensures out.size == old(out.size) + done
    {
      NthBytes(w.books, d, i);
      NextView(w, d, i);
      var v := view;
      length := v.length;
      done := Min(length - offset, n);
      m := PartBytes(w.books, d, i, offset, offset + done, k);
      t, u := out.PushPart(w, v, offset, offset + done);
      assert v.next == NthView(w.books.ropes[d], i + 1) by { NextView(u, d, i); }
      next := v.next;
    }

    // one round of read(n, out)
    method ReadOnce(ghost w: World, d: Data, out: Data, n: nat, ghost i: nat, ghost k: nat)
      returns (done: nat, ghost j: nat, ghost m: nat, ghost t: seq<bv8>, ghost u: World)
      requires Wired(w) && d in w.datas && out in w.datas && d != out && At(w, d, i, k) && view != null
      modifies this, out, w.books.owner.Keys, w.holders.Keys
      ensures Wired(u) && Grown(w, u) && HasRope(w, out) && Beside(w.books, u.books, out)
      ensures done <= n && m == k + done <= |Bytes(w.books, d)|
      ensures t == Bytes(w.books, out) + Bytes(w.books, d)[k..m] && Changed(w, u, out, t)
      ensures out.size == old(out.size) + done && position == old(position) + done
      ensures At(w, d, j, m) && (done < n ==> j == i + 1)
    {
      var length, next;
      done, length, next, m, t, u := GiveOnce(w, d, out, n, i, k);
      j := MoveOn(w, d, length, next, done, i, k, m);
    }

    // one more round of read(n, out)
    method ReadNext(ghost w: World, ghost x: World, d: Data, out: Data, n: nat, ghost i: nat, ghost j: nat,
                    ghost k: nat, ghost s: seq<bv8>)
      returns (some: nat, ghost i': nat, ghost m: nat, ghost t: seq<bv8>, ghost u: World)
      requires Wired(x) && d in x.datas && out in x.datas && d != out && At(w, d, i, k) && view != null
      requires ReadSoFar(w, x, d, out, j, k, s) && out.size == |s|
      modifies this, out, x.books.owner.Keys, x.holders.Keys
      ensures Wired(u) && Grown(x, u) && ReadSoFar(w, u, d, out, j, m, t)
      ensures some <= n && m == k + some && out.size == |t| && position == old(position) + some
      ensures At(w, d, i', m) && (some < n ==> i' == i + 1)
    {
      ChangedBytes(w, x, out, s);
      BesideBytes(w.books, x.books, out, d, i);
      assert HasRope(x, d) by { Reach(x, d); }
      some, i', m, t, u := ReadOnce(x, d, out, n, i, k);
      BesideBytes(w.books, x.books, out, d, i');
      ReadMore(w, x, u, d, out, j, k, m, s, t);
    }

    // the rounds of read(n, out)
    method ReadAll(ghost w: World, d: Data, out: Data, n: int, ghost i0: nat, ghost k: nat)
      returns (done: nat, ghost i: nat, ghost m: nat, ghost t: seq<bv8>, ghost u: World)
      requires Wired(w) && d in w.datas && out in w.datas && d != out && At(w, d, i0, k)
      requires HasRope(w, out) && out.size == |Bytes(w.books, out)|
      modifies this, out, w.books.owner.Keys, w.holders.Keys
      ensures Wired(u) && Grown(w, u) && m == k + done && ReadSoFar(w, u, d, out, k, m, t) && At(w, d, i, m)
      ensures out.size == |t| && position == old(position) + done
      ensures done == Min(if n < 0 then 0 else n, |Bytes(w.books, d)| - k)
    {
      NthBytes(w.books, d, i0);
      ReadNothing(w, d, out, k);
      i, m, t, u := i0, k, Bytes(w.books, out), w;
      done := 0;
      while done < n && view != null
        invariant Wired(u) && Grown(w, u)
        invariant ReadSoFar(w, u, d, out, k, m, t)
        invariant At(w, d, i, m) && m == k + done && (done > 0 ==> done <= n)
        invariant out.size == |t| && position == old(position) + done
        decreases n - done, |w.books.ropes[d]| - i
      {
        var some;
        some, i, m, t, u := ReadNext(w, u, d, out, n - done, i, k, m, t);
        done := done + some;
      }
      ReadEnds(w, d, i, m);
    }

    // At the end there is nothing left.
    lemma ReadEnds(w: World, d: Data, i: nat, m: nat)
      requires BooksOk(w.books) && d in w.books.ropes && At(w, d, i, m) && (view == null ==> i == |w.books.ropes[d]|)
      ensures view == null ==> m == |Bytes(w.books, d)|
    {
      NthBytes(w.books, d, i);
    }

    // read(n, out)
    method Read(ghost w: World, d: Data, out: Data, n: int, ghost i0: nat, ghost k: nat)
      returns (done: nat, ghost i: nat, ghost m: nat, ghost t: seq<bv8>, ghost u: World)
      requires Ok(w) && d in w.datas && out in w.datas && d != out && At(w, d, i0, k)
      modifies this, out, w.books.owner.Keys, w.holders.Keys
      ensures Ok(u) && Grown(w, u) && HasRope(w, out)
      ensures k <= |Bytes(w.books, d)| && done == Min(if n < 0 then 0 else n, |Bytes(w.books, d)| - k) && m == k + done
      ensures t == Bytes(w.books, out) + Bytes(w.books, d)[k..m] && Changed(w, u, out, t)
      ensures At(u, d, i, m) && position == old(position) + done
    {
      assert HasRope(w, out) by { Reach(w, out); }
      done, i, m, t, u := ReadAll(w, d, out, n, i0, k);
      ChangedIsOk(Focus(w, out), u, t);
      BesideBytes(w.books, u.books, out, d, i);
    }
  }

  const NOTHING := World(Books(map[], map[], map[], map[], map[]), map[], {}, {})

  lemma NothingIsOk()
    ensures Ok(NOTHING)
  {
  }

  lemma ShowingHasViews(w: World, d: Data)
    requires Wired(w) && d in w.datas
    ensures HasRope(w, d) && (Bytes(w.books, d) != [] ==> d.head != null)
  {
    Reach(w, d);
    OwnedIsShown(w.books, d);
  }

  method OneByteRope() returns (d: Data, ghost w: World)
    ensures Ok(w) && fresh(d) && HasRope(w, d) && Bytes(w.books, d) == [0] && d.head != null
    ensures fresh(w.datas) && fresh(w.books.owner.Keys) && fresh(w.holders.Keys)
  {
    NothingIsOk();
    ghost var x, t;
    d, x := MakeData(NOTHING);
    t, w := d.PushByte(x, 0);
    ChangedBytes(x, w, d, t);
    ShowingHasViews(w, d);
    assert Bytes(x.books, d) == Contents(x.books)[d];
  }

  // A rope of a view that shows nothing: shift_while with a first byte that is to stay.
  method EmptyViewRope() returns (d: Data, ghost w: World)
    ensures Ok(w) && HasRope(w, d) && Bytes(w.books, d) == [] && HasViews(w, d)
  {
    var from;
    ghost var x, y;
    from, x := OneByteRope();
    d, y := MakeData(x);
    Reach(y, d);
    Reach(y, from);
    assert Bytes(y.books, d) == Contents(y.books)[d] && Bytes(y.books, from) == Contents(y.books)[from];
    ghost var n;
    n, w := from.ShiftWhile(y, s => false, d);
    Reach(w, d);
    assert Bytes(w.books, d) == Contents(w.books)[d];
  }

  // Its reader gets something, although there are no bytes.
  method GetFromNothing(stray: bv8) returns (d: Data, out: seq<int>, ghost w: World)
    ensures Ok(w) && HasRope(w, d) && Bytes(w.books, d) == [] && out != []
  {
    d, w := EmptyViewRope();
    Reach(w, d);
    NthBytes(w.books, d, 0);
    NthBytes(w.books, d, 1);
    var reader := new Reader(d);
    out := reader.GetAll(w, d, stray);
    NoneEmpty(w.books, d, |w.books.ropes[d]|);
  }

  // ----- counts ----------------------------------------------------------------------------

  // Between operations, the count of a chunk is the number of its views in the lists of all
  // data and shared data, and a chunk with a view is never gone.
  lemma CountIsViews(w: World, c: Chunk)
    requires Ok(w) && c in w.holders
    ensures c.retain_count == |set v | v in w.books.owner && v.chunk == c| > 0
    ensures forall v :: v in w.books.owner ==>
      v.chunk in w.holders && exists o :: o in w.books.ropes && Lists(w, o) && v in w.books.ropes[o]
  {
    assert ChunkOk(w.books, w.holders, c);
    forall v | v in w.books.owner
      ensures v.chunk in w.holders && exists o :: o in w.books.ropes && Lists(w, o) && v in w.books.ropes[o]
      ensures v in w.holders[c] <==> v.chunk == c
    {
      var o := w.books.owner[v];
      assert ViewOk(w.books, w.holders, v) && Placed(w.books, v);
      assert o in w.books.ropes && Lists(w, o) && v in w.books.ropes[o];
    }
    assert w.holders[c] == set v | v in w.books.owner && v.chunk == c;
  }
}
