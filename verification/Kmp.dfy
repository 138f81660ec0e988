// The streaming Knuth-Morris-Pratt splitter (src/kmp.cpp): its failure table, and that the
// pieces it puts out do not depend on how the input was cut.
module Kmp {
  type byte = bv8

  // ----- prefixes of the pattern that end a text -------------------------------------------

  // The first k bytes of w are the last k bytes of s.
  predicate Ends(w: seq<byte>, s: seq<byte>, k: int) {
    0 <= k <= |w| && k <= |s| && w[..k] == s[|s| - k..]
  }

  ghost predicate Longest(w: seq<byte>, s: seq<byte>, k: int) {
    Ends(w, s, k) && forall m :: Ends(w, s, m) ==> m <= k
  }

  // k is a proper border of the first i bytes of w.
  predicate Border(w: seq<byte>, i: nat, k: int) {
    0 <= k < i <= |w| && w[..k] == w[i - k..i]
  }

  ghost predicate LongestBorder(w: seq<byte>, i: nat, k: int) {
    Border(w, i, k) && forall m :: Border(w, i, m) ==> m <= k
  }

  lemma BorderEnds(w: seq<byte>, i: nat, k: int)
    requires 0 < i <= |w|
    ensures Border(w, i, k) <==> Ends(w, w[1..i], k)
  {
    if 0 <= k < i {
      assert w[1..i][|w[1..i]| - k..] == w[i - k..i];
    }
  }

  lemma BorderIsLongest(w: seq<byte>, i: nat, k: int)
    requires 0 < i <= |w|
    ensures LongestBorder(w, i, k) <==> Longest(w, w[1..i], k)
  {
    forall m ensures Border(w, i, m) <==> Ends(w, w[1..i], m) {
      BorderEnds(w, i, m);
    }
  }

  // The failure table, as far as m.
  ghost predicate Table(w: seq<byte>, lps: seq<int>, m: nat) {
    && 0 < m <= |lps| <= |w| + 1 && lps[0] == -1
    && forall i :: 0 < i < m ==> LongestBorder(w, i, lps[i])
  }

  // A shorter prefix that ends s also ends the longer one.
  lemma EndsInside(w: seq<byte>, s: seq<byte>, j: int, k: int)
    requires Ends(w, s, j) && 0 <= k < j
    ensures Ends(w, s, k) <==> Border(w, j, k)
  {
    assert w[j - k..j] == w[..j][j - k..] == s[|s| - j..][j - k..] == s[|s| - k..];
  }

  lemma EndsOneMore(w: seq<byte>, s: seq<byte>, c: byte, k: int)
    ensures Ends(w, s + [c], k + 1) && k >= 0 <==> Ends(w, s, k) && k < |w| && w[k] == c
  {
    var t := s + [c];
    if 0 <= k < |w| && k <= |s| {
      assert w[..k + 1] == w[..k] + [w[k]];
      assert t[|t| - (k + 1)..] == s[|s| - k..] + [c];
      if w[..k + 1] == t[|t| - (k + 1)..] {
        assert w[..k + 1][..k] == t[|t| - (k + 1)..][..k];
        assert w[..k + 1][k] == t[|t| - (k + 1)..][k];
      }
    }
  }

  // Which prefixes can still be made longer by c once those above j have been ruled out.
  ghost predicate Candidate(w: seq<byte>, s: seq<byte>, c: byte, j: int) {
    && -1 <= j < |w| && (j >= 0 ==> Ends(w, s, j))
    && forall k :: Ends(w, s, k) && k < |w| && w[k] == c ==> k <= j
  }

  // One step back through the table loses no candidate.
  lemma FallBack(w: seq<byte>, lps: seq<int>, m: nat, s: seq<byte>, c: byte, j: int)
    requires Table(w, lps, m) && Candidate(w, s, c, j) && 0 <= j < m && w[j] != c
    ensures -1 <= lps[j] < j && Candidate(w, s, c, lps[j])
  {
    if j > 0 {
      assert LongestBorder(w, j, lps[j]);
      EndsInside(w, s, j, lps[j]);
    }
    forall k | Ends(w, s, k) && k < |w| && w[k] == c ensures k <= lps[j] {
      assert k < j;
      EndsInside(w, s, j, k);
    }
  }

  // Where the search ends is the longest prefix with c, less one.
  lemma Found(w: seq<byte>, s: seq<byte>, c: byte, j: int)
    requires Candidate(w, s, c, j) && (j >= 0 ==> w[j] == c)
    ensures Longest(w, s + [c], j + 1)
  {
    var t := s + [c];
    EndsOneMore(w, s, c, j);
    if j == -1 {
      assert w[..0] == t[|t|..];
    }
    forall m | Ends(w, t, m) ensures m <= j + 1 {
      if m > 0 {
        EndsOneMore(w, s, c, m - 1);
      }
    }
  }

  lemma StartCandidate(w: seq<byte>, s: seq<byte>, c: byte, j: int)
    requires Longest(w, s, j) && j < |w|
    ensures Candidate(w, s, c, j)
  {
  }

  lemma NextEntry(w: seq<byte>, s: seq<byte>, i: nat, j: int)
    requires i < |w| && s == (if i == 0 then [] else w[1..i])
    requires if i == 0 then j == -1 else Candidate(w, s, w[i], j) && (j >= 0 ==> w[j] == w[i])
    ensures LongestBorder(w, i + 1, j + 1)
  {
    if i > 0 {
      Found(w, s, w[i], j);
      assert s + [w[i]] == w[1..i + 1];
      BorderIsLongest(w, i + 1, j + 1);
    }
  }

  class KMP {
    const pattern: seq<byte>
    const lps: seq<int>
    ghost const steps: nat   // how often the two loops of the constructor went round

    ghost predicate Valid() {
      pattern != [] && |lps| == |pattern| + 1 && Table(pattern, lps, |lps|)
    }

    // The table is computed in at most two steps a byte.
    constructor (separator: seq<byte>)
      requires separator != []
      ensures pattern == separator && Valid() && steps <= 2 * |separator|
      ensures lps[0] == -1 && forall i :: 0 < i <= |pattern| ==> LongestBorder(pattern, i, lps[i])
    {
      var n := |separator|;
      var table := new int[n + 1](_ => 0);
      var i, j := 0, -1;
      table[0] := -1;
      ghost var rounds := 0;
      while i < n
        invariant 0 <= i <= n && -1 <= j < n && table[0] == -1
        invariant Table(separator, table[..], i + 1) && j == table[i] && j < i
        invariant rounds + j + 1 <= 2 * i
      {
        ghost var before, c := table[..], separator[i];
        ghost var s := if i == 0 then [] else separator[1..i];
        if i > 0 {
          assert LongestBorder(separator, i, j);
          BorderIsLongest(separator, i, j);
          StartCandidate(separator, s, c, j);
        }
        while j >= 0 && separator[i] != separator[j]
          invariant -1 <= j < n && j < i + 1 && (i == 0 ==> j == -1) && (i > 0 ==> Candidate(separator, s, c, j))
          invariant table[..] == before && rounds + j + 1 <= 2 * i
          decreases j
        {
          FallBack(separator, before, i + 1, s, c, j);
          j := table[j];
          rounds := rounds + 1;
        }
        NextEntry(separator, s, i, j);
        i := i + 1;
        j := j + 1;
        table[i] := j;
        rounds := rounds + 1;
        assert table[..] == before[i := j];
      }
      pattern := separator;
      steps := rounds;
      lps := table[..];
    }
  }

  // ----- the split of a text -------------------------------------------------------------------

  predicate At(w: seq<byte>, s: seq<byte>, p: nat) {
    p + |w| <= |s| && s[p..p + |w|] == w
  }

  // The first place from `from` on where w is in s, or past the end.
  function Find(w: seq<byte>, s: seq<byte>, from: nat): (p: nat)
    ensures p <= |s| ==> At(w, s, p) && from <= p
    ensures forall q :: from <= q < p ==> !At(w, s, q)
    decreases |s| - from
  {
    if from > |s| then from
    else if At(w, s, from) then from
    else Find(w, s, from + 1)
  }

  // What is between the separators, leftmost first and none inside another.
  function SplitOf(w: seq<byte>, s: seq<byte>): seq<seq<byte>>
    requires w != []
    decreases |s|
  {
    var p := Find(w, s, 0);
    if p <= |s| then [s[..p]] + SplitOf(w, s[p + |w|..]) else [s]
  }

  ghost predicate Nowhere(w: seq<byte>, s: seq<byte>) {
    forall p: nat :: !At(w, s, p)
  }

  // The segments with separators between them.
  function Join(w: seq<byte>, segments: seq<seq<byte>>): seq<byte> {
    if segments == [] then []
    else if |segments| == 1 then segments[0]
    else segments[0] + w + Join(w, segments[1..])
  }

  // A separator comes after its segment and begins nowhere in it.
  ghost predicate FirstAfter(w: seq<byte>, segment: seq<byte>) {
    forall p: nat :: p < |segment| ==> !At(w, segment + w, p)
  }

  ghost predicate LeftmostSplit(w: seq<byte>, segments: seq<seq<byte>>) {
    && segments != [] && Nowhere(w, segments[|segments| - 1])
    && forall i :: 0 <= i < |segments| - 1 ==> FirstAfter(w, segments[i])
  }

  lemma FirstSegment(w: seq<byte>, segment: seq<byte>, rest: seq<byte>)
    requires w != []
    ensures At(w, segment + w + rest, |segment|)
    ensures Find(w, segment + w + rest, 0) == |segment| <==> FirstAfter(w, segment)
  {
    var s, n := segment + w + rest, |segment|;
    assert s[n..n + |w|] == w;
    forall p: nat | p < n ensures At(w, s, p) <==> At(w, segment + w, p) {
      assert s[p..p + |w|] == (segment + w)[p..p + |w|];
    }
    var f := Find(w, s, 0);
    assert At(w, s, n);
    assert !(n < f);
    assert f < n ==> At(w, segment + w, f);
  }

  lemma {:induction false} SplitOfJoins(w: seq<byte>, s: seq<byte>)
    requires w != []
    ensures Join(w, SplitOf(w, s)) == s && LeftmostSplit(w, SplitOf(w, s))
    decreases |s|
  {
    var p := Find(w, s, 0);
    if p <= |s| {
      var segment, rest := s[..p], s[p + |w|..];
      var segments := SplitOf(w, rest);
      SplitOfJoins(w, rest);
      assert s == segment + w + rest;
      FirstSegment(w, segment, rest);
      assert ([segment] + segments)[1..] == segments;
      forall i | 0 <= i < |segments| ensures FirstAfter(w, ([segment] + segments)[i]) {
        assert i > 0 ==> ([segment] + segments)[i] == segments[i - 1];
      }
    } else {
      assert Nowhere(w, s) by {
        forall q: nat ensures !At(w, s, q) {
        }
      }
    }
  }

  lemma {:induction false} OnlySplit(w: seq<byte>, segments: seq<seq<byte>>)
    requires w != [] && LeftmostSplit(w, segments)
    ensures SplitOf(w, Join(w, segments)) == segments
    decreases |segments|
  {
    if |segments| == 1 {
      NowhereIsOne(w, segments[0]);
    } else {
      var segment, others := segments[0], segments[1..];
      forall i | 0 <= i < |others| - 1 ensures FirstAfter(w, others[i]) {
        assert others[i] == segments[i + 1];
      }
      OnlySplit(w, others);
      var rest := Join(w, others);
      FirstSegment(w, segment, rest);
      assert FirstAfter(w, segments[0]);
      var s := segment + w + rest;
      assert s[..|segment|] == segment && s[|segment| + |w|..] == rest;
    }
  }

  // The split of a text is the one way to cut it at separators each of which is the first after
  // the one before.
  lemma SplitIs(w: seq<byte>, s: seq<byte>, segments: seq<seq<byte>>)
    requires w != []
    ensures segments == SplitOf(w, s) <==> Join(w, segments) == s && LeftmostSplit(w, segments)
  {
    SplitOfJoins(w, s);
    if LeftmostSplit(w, segments) {
      OnlySplit(w, segments);
    }
  }

  lemma NowhereIsOne(w: seq<byte>, s: seq<byte>)
    requires w != [] && Nowhere(w, s)
    ensures SplitOf(w, s) == [s]
  {
  }

  lemma FirstPlace(w: seq<byte>, s: seq<byte>, c: byte, rest: seq<byte>, p: nat)
    requires w != [] && Nowhere(w, s) && p + |w| == |s| + 1 && w == (s + [c])[p..]
    ensures At(w, s + [c] + rest, p) && Find(w, s + [c] + rest, 0) == p
  {
    var all := s + [c] + rest;
    assert all[p..p + |w|] == (s + [c])[p..];
    forall q: nat | q < p ensures !At(w, all, q) {
      assert all[q..q + |w|] == s[q..q + |w|];
      assert !At(w, s, q);
    }
    var f := Find(w, all, 0);
    assert f <= |all| ==> p <= f;
    assert p < f ==> !At(w, all, p);
  }

  // A separator that is complete only now is the first one.
  lemma SplitFirst(w: seq<byte>, s: seq<byte>, c: byte, rest: seq<byte>)
    requires w != [] && Nowhere(w, s) && Ends(w, s + [c], |w|)
    ensures var t := s + [c]; SplitOf(w, t + rest) == [t[..|t| - |w|]] + SplitOf(w, rest)
  {
    var t := s + [c];
    var p := |t| - |w|;
    assert w[..|w|] == w;
    FirstPlace(w, s, c, rest, p);
    assert (t + rest)[..p] == t[..p] && (t + rest)[p + |w|..] == rest;
  }

  lemma StillNowhere(w: seq<byte>, s: seq<byte>, c: byte)
    requires Nowhere(w, s) && !Ends(w, s + [c], |w|)
    ensures Nowhere(w, s + [c])
  {
    var t := s + [c];
    assert w[..|w|] == w;
    forall p: nat ensures !At(w, t, p) {
      if p + |w| <= |s| {
        assert t[p..p + |w|] == s[p..p + |w|];
        assert !At(w, s, p);
      } else if p + |w| == |t| {
        assert t[p..p + |w|] == t[|t| - |w|..];
      }
    }
  }

  // ----- the stream -----------------------------------------------------------------------------

  datatype Event = Piece(bytes: seq<byte>) | Separator

  // The finished segments of a log, and the bytes of the one under way.
  function Closed(log: seq<Event>): seq<seq<byte>> {
    if log == [] then []
    else match log[|log| - 1]
      case Piece(_) => Closed(log[..|log| - 1])
      case Separator => Closed(log[..|log| - 1]) + [Open(log[..|log| - 1])]
  }

  function Open(log: seq<Event>): seq<byte> {
    if log == [] then []
    else match log[|log| - 1]
      case Piece(b) => Open(log[..|log| - 1]) + b
      case Separator => []
  }

  lemma OneMoreEvent(log: seq<Event>, e: Event)
    ensures Closed(log + [e]) == if e.Separator? then Closed(log) + [Open(log)] else Closed(log)
    ensures Open(log + [e]) == if e.Separator? then [] else Open(log) + e.bytes
  {
    assert (log + [e])[..|log|] == log;
  }

  // The log is right about the text, of which `cur` came after the last separator.
  ghost predicate Right(w: seq<byte>, text: seq<byte>, log: seq<Event>, cur: seq<byte>)
    requires w != []
  {
    && Nowhere(w, cur)
    && forall rest :: SplitOf(w, text + rest) == Closed(log) + SplitOf(w, cur + rest)
  }

  lemma RightMore(w: seq<byte>, text: seq<byte>, log: seq<Event>, cur: seq<byte>, c: byte)
    requires w != [] && Right(w, text, log, cur) && !Ends(w, cur + [c], |w|)
    ensures Right(w, text + [c], log, cur + [c])
  {
    StillNowhere(w, cur, c);
    forall rest ensures SplitOf(w, text + [c] + rest) == Closed(log) + SplitOf(w, cur + [c] + rest) {
      assert text + [c] + rest == text + ([c] + rest) && cur + [c] + rest == cur + ([c] + rest);
    }
  }

  lemma Assoc<T>(a: seq<T>, b: seq<T>, c: seq<T>)
    ensures a + b + c == a + (b + c)
  {
  }

  lemma OneMoreSegment(all: seq<seq<byte>>, closed: seq<seq<byte>>, some: seq<seq<byte>>, segment: seq<byte>,
                       others: seq<seq<byte>>)
    requires all == closed + some && some == [segment] + others
    ensures all == (closed + [segment]) + others
  {
  }

  lemma NextSegment(w: seq<byte>, text: seq<byte>, closed: seq<seq<byte>>, cur: seq<byte>, c: byte, segment: seq<byte>,
                    rest: seq<byte>)
    requires w != [] && Nowhere(w, cur) && Ends(w, cur + [c], |w|) && segment == (cur + [c])[..|cur| + 1 - |w|]
    requires SplitOf(w, text + ([c] + rest)) == closed + SplitOf(w, cur + ([c] + rest))
    ensures SplitOf(w, (text + [c]) + rest) == (closed + [segment]) + SplitOf(w, rest)
  {
    var all, some := SplitOf(w, text + ([c] + rest)), SplitOf(w, cur + ([c] + rest));
    Assoc(text, [c], rest);
    Assoc(cur, [c], rest);
    SplitFirst(w, cur, c, rest);
    OneMoreSegment(all, closed, some, segment, SplitOf(w, rest));
  }

  lemma RightNext(w: seq<byte>, text: seq<byte>, log: seq<Event>, cur: seq<byte>, c: byte, piece: seq<byte>)
    requires w != [] && Right(w, text, log, cur) && Ends(w, cur + [c], |w|)
    requires Open(log) + piece == (cur + [c])[..|cur| + 1 - |w|]
    ensures Right(w, text + [c], log + [Piece(piece)] + [Separator], [])
    ensures Open(log + [Piece(piece)] + [Separator]) == []
  {
    OneMoreEvent(log, Piece(piece));
    OneMoreEvent(log + [Piece(piece)], Separator);
    var log' := log + [Piece(piece)] + [Separator];
    var segment := Open(log) + piece;
    assert Closed(log') == Closed(log) + [segment];
    forall rest ensures SplitOf(w, text + [c] + rest) == Closed(log') + SplitOf(w, [] + rest) {
      NextSegment(w, text, Closed(log), cur, c, segment, rest);
      assert [] + rest == rest;
    }
  }

  lemma CutIsRight(w: seq<byte>, text: seq<byte>, log: seq<Event>, cur: seq<byte>, buffer: seq<byte>)
    requires w != [] && |cur| > 0 && |text| > 0 && text[|text| - 1] == cur[|cur| - 1] && cur == Open(log) + buffer
    requires Right(w, text[..|text| - 1], log, cur[..|cur| - 1]) && Ends(w, cur, |w|) && |w| <= |buffer|
    ensures var piece := buffer[..|buffer| - |w|]; var log' := log + [Piece(piece)] + [Separator];
      Right(w, text, log', []) && Open(log') == [] && Longest(w, [], 0)
  {
    var c := cur[|cur| - 1];
    var piece := buffer[..|buffer| - |w|];
    assert cur[..|cur| - 1] + [c] == cur && text[..|text| - 1] + [c] == text;
    assert (Open(log) + buffer)[..|cur| - |w|] == Open(log) + piece;
    RightNext(w, text[..|text| - 1], log, cur[..|cur| - 1], c, piece);
    assert Ends(w, [], 0);
  }

  lemma LastSegment(log: seq<Event>, buffer: seq<byte>)
    ensures var last := if buffer == [] then [] else [Piece(buffer)];
      var log' := log + last + [Separator];
      Closed(log') == Closed(log) + [Open(log) + buffer] && Open(log') == []
  {
    var last := if buffer == [] then [] else [Piece(buffer)];
    if buffer == [] {
      assert log + last == log && Open(log) + buffer == Open(log);
    } else {
      OneMoreEvent(log, Piece(buffer));
    }
    OneMoreEvent(log + last, Separator);
  }

  lemma Halves<T>(a: seq<T>, b: seq<T>, k: nat)
    requires k <= |b|
    ensures a + b[..k] + b[k..] == a + b
  {
  }

  // Part of the buffer goes out.
  lemma PieceIsRight(w: seq<byte>, text: seq<byte>, log: seq<Event>, cur: seq<byte>, buffer: seq<byte>, n: nat)
    requires w != [] && Right(w, text, log, cur) && cur == Open(log) + buffer && n <= |buffer|
    ensures var log' := log + [Piece(buffer[..n])];
      Right(w, text, log', cur) && cur == Open(log') + buffer[n..]
  {
    OneMoreEvent(log, Piece(buffer[..n]));
    Halves(Open(log), buffer, n);
  }

  lemma Shorter(w: seq<byte>, s: seq<byte>, c: byte, j: int, k: int)
    requires Longest(w, s, j) && Longest(w, s + [c], k)
    ensures k <= j + 1
  {
    if k > 0 {
      EndsOneMore(w, s, c, k - 1);
    }
  }

  class Split {
    const kmp: KMP
    var buffer: seq<byte>
    var matchLen: nat
    ghost var text: seq<byte>       // all input
    ghost var log: seq<Event>       // all output
    ghost var cur: seq<byte>        // the input since the last separator

    ghost predicate Valid()
      reads this
    {
      && kmp.Valid() && Right(kmp.pattern, text, log, cur) && cur == Open(log) + buffer
      && Longest(kmp.pattern, cur, matchLen) && |buffer| == matchLen
    }

    constructor (kmp: KMP)
      requires kmp.Valid()
      ensures Valid() && this.kmp == kmp && text == [] && log == []
    {
      this.kmp := kmp;
      buffer, matchLen := [], 0;
      text, log, cur := [], [], [];
      new;
      assert Right(kmp.pattern, [], [], []) by {
        forall rest ensures SplitOf(kmp.pattern, [] + rest) == Closed([]) + SplitOf(kmp.pattern, [] + rest) {
        }
      }
    }

    // The split of what came so far, and what is retained.
    lemma SoFar()
      requires Valid()
      ensures SplitOf(kmp.pattern, text) == Closed(log) + [Open(log) + buffer]
      ensures buffer == kmp.pattern[..matchLen] && Longest(kmp.pattern, cur, |buffer|)
      ensures matchLen < |kmp.pattern|
    {
      assert text + [] == text && cur + [] == cur;
      NowhereIsOne(kmp.pattern, cur);
      if matchLen == |kmp.pattern| {
        assert kmp.pattern[..matchLen] == kmp.pattern;
        assert At(kmp.pattern, cur, |cur| - |kmp.pattern|);
      }
    }

    // The two nested loops on one byte.
    method Match(c: byte, j0: nat, ghost s: seq<byte>) returns (j: nat)
      requires kmp.Valid() && Longest(kmp.pattern, s, j0) && j0 < |kmp.pattern|
      ensures Longest(kmp.pattern, s + [c], j)
    {
      var w, lps, at := kmp.pattern, kmp.lps, j0 as int;
      StartCandidate(w, s, c, at);
      while at >= 0 && c != w[at]
        invariant -1 <= at < |w| && Candidate(w, s, c, at)
        decreases at
      {
        FallBack(w, lps, |lps|, s, c, at);
        at := lps[at];
      }
      Found(w, s, c, at);
      j := at + 1;
    }

    // Where the scan stands: the pattern is complete at most at the very end.
    ghost predicate Scanning(j: nat)
      reads this
    {
      && kmp.Valid() && cur == Open(log) + buffer && Longest(kmp.pattern, cur, j) && j <= |buffer|
      && (j < |kmp.pattern| ==> Right(kmp.pattern, text, log, cur))
      && (j == |kmp.pattern| ==>
           && |cur| > 0 && |text| > 0 && text[|text| - 1] == cur[|cur| - 1]
           && Right(kmp.pattern, text[..|text| - 1], log, cur[..|cur| - 1]))
    }

    method TakeByte(c: byte, j0: nat) returns (j: nat)
      requires Scanning(j0) && j0 < |kmp.pattern|
      modifies `buffer, `text, `cur
      ensures Scanning(j) && buffer == old(buffer) + [c] && text == old(text) + [c]
    {
      j := Match(c, j0, cur);
      ghost var w := kmp.pattern;
      if j < |w| {
        RightMore(w, text, log, cur, c);
      }
      assert (cur + [c])[..|cur|] == cur && (text + [c])[..|text|] == text;
      Assoc(Open(log), buffer, [c]);
      assert j <= |buffer| + 1 by { Shorter(w, cur, c, j0, j); }
      buffer := buffer + [c];
      text := text + [c];
      cur := cur + [c];
    }

    // shift_to: bytes go to the buffer until the pattern is complete
    method Take(data: seq<byte>, j0: nat) returns (k: nat, j: nat)
      requires Scanning(j0) && data != [] && j0 < |kmp.pattern|
      modifies `buffer, `text, `cur
      ensures 0 < k <= |data| && (j < |kmp.pattern| ==> k == |data|)
      ensures Scanning(j) && buffer == old(buffer) + data[..k] && text == old(text) + data[..k]
    {
      k, j := 0, j0;
      while k < |data| && j < |kmp.pattern|
        invariant 0 <= k <= |data| && (k == 0 ==> j == j0)
        invariant Scanning(j) && buffer == old(buffer) + data[..k] && text == old(text) + data[..k]
      {
        j := TakeByte(data[k], j);
        assert data[..k + 1] == data[..k] + [data[k]];
        k := k + 1;
      }
    }

    // The pattern is complete: what is before it in the buffer goes out.
    method Cut() returns (out: seq<Event>)
      requires Scanning(|kmp.pattern|)
      modifies `buffer, `log, `cur
      ensures Scanning(0) && log == old(log) + out && buffer == []
    {
      var n := |buffer| - |kmp.pattern|;
      var piece := Piece(buffer[..n]);
      ghost var more := log + [piece] + [Separator];
      CutIsRight(kmp.pattern, text, log, cur, buffer);
      Assoc(log, [piece], [Separator]);
      out := [piece] + [Separator];
      buffer, log, cur := [], more, [];
      assert [] == Open(more) + [];
    }

    // What cannot be part of a separator goes out.
    method Release(j: nat) returns (out: seq<Event>)
      requires Scanning(j) && j < |kmp.pattern|
      modifies `buffer, `matchLen, `log
      ensures Valid() && matchLen == j && text == old(text) && log == old(log) + out
    {
      matchLen := j;
      if |buffer| > j {
        out := ReleaseAll(|buffer| - j);
      } else {
        out := [];
        assert log + [] == log;
      }
    }

    method ReleaseAll(n: nat) returns (out: seq<Event>)
      requires n <= |buffer| && kmp.Valid() && Right(kmp.pattern, text, log, cur) && cur == Open(log) + buffer
      modifies `buffer, `log
      ensures Right(kmp.pattern, text, log, cur) && cur == Open(log) + buffer
      ensures |buffer| == old(|buffer|) - n && log == old(log) + out
    {
      out := [Piece(buffer[..n])];
      PieceIsRight(kmp.pattern, text, log, cur, buffer, n);
      log := log + out;
      buffer := buffer[n..];
    }

    // All input so far, however it was cut, is split leftmost first: what is finished is
    // in the log, and the rest is what went out since, followed by the buffer.
    method Input(data: seq<byte>) returns (out: seq<Event>)
      requires Valid()
      modifies this
      ensures Valid() && text == old(text) + data && log == old(log) + out
      ensures SplitOf(kmp.pattern, text) == Closed(log) + [Open(log) + buffer]
      ensures buffer == kmp.pattern[..matchLen] && Longest(kmp.pattern, cur, |buffer|) && matchLen < |kmp.pattern|
    {
      SoFar();
      var j: nat := matchLen;
      var rest := data;
      out := [];
      while rest != []
        invariant Scanning(j) && j < |kmp.pattern|
        invariant text + rest == old(text) + data && log == old(log) + out
        decreases |rest|
      {
        ghost var t := text;
        var k;
        k, j := Take(rest, j);
        Halves(t, rest, k);
        rest := rest[k..];
        if j == |kmp.pattern| {
          var some := Cut();
          Assoc(old(log), out, some);
          out := out + some;
          j := 0;
        }
      }
      assert text + [] == text;
      var some := Release(j);
      Assoc(old(log), out, some);
      out := out + some;
      SoFar();
    }

    // The last segment is whatever is left. The length of the match stays, so that the splitter
    // is as a new one exactly if nothing was left in the buffer.
    method End() returns (out: seq<Event>)
      requires Valid()
      modifies this
      ensures text == old(text) && log == old(log) + out
      ensures Closed(log) == SplitOf(kmp.pattern, text) && Open(log) == []
      ensures buffer == [] && matchLen == old(|buffer|)
    {
      SoFar();
      var last := if buffer == [] then [] else [Piece(buffer)];
      out := last + [Separator];
      LastSegment(log, buffer);
      Assoc(log, last, [Separator]);
      buffer := [];
      log := log + out;
    }
  }
}
