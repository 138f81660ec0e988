// The deframer (src/deframer.cpp): a byte automaton with bulk fast paths, which does the
// same however its input is cut.
module Deframer {
  type byte = bv8

  // Where the bytes of a request go.
  datatype Target = Nowhere | ToBuffer | ToData | ToArray | ToPass

  // on_state(state, c) for a byte, or with -1 for a finished request and what it read.
  datatype Call = OnByte(state: int, c: byte) | OnDone(state: int, read: seq<byte>)

  // What on_state does: the next state, a request by read or pass, whether all bytes are
  // passed on from now on, and whether to flush.
  datatype Reaction = Reaction(next: int, target: Target, size: nat, passing: bool, flush: bool)

  // on_state as any deterministic function of all calls so far.
  type Handler = seq<Call> -> Reaction

  // Requests are for at least one byte.
  ghost predicate Positive(h: Handler) {
    forall calls {:trigger h(calls)} :: h(calls).target != Nowhere ==> h(calls).size > 0
  }

  // ----- byte by byte ------------------------------------------------------------------------

  datatype Machine = Machine(
    state: int,
    passing: bool,
    target: Target,       // the request under way
    left: nat,            // how many bytes it still wants
    read: seq<byte>,      // what it has read
    calls: seq<Call>,     // all calls of on_state
    passed: seq<byte>)    // all bytes given to on_pass

  ghost predicate Ok(m: Machine) {
    m.target == Nowhere <==> m.left == 0
  }

  function React(h: Handler, m: Machine, call: Call): Machine {
    var calls := m.calls + [call];
    var r := h(calls);
    Machine(r.next, r.passing, r.target, if r.target == Nowhere then 0 else r.size, [], calls, m.passed)
  }

  // Some bytes of a request that wants at least as many.
  function Fill(m: Machine, bytes: seq<byte>): Machine
    requires |bytes| <= m.left
  {
    m.(left := m.left - |bytes|,
       read := if m.target == ToPass then m.read else m.read + bytes,
       passed := if m.passing || m.target == ToPass then m.passed + bytes else m.passed)
  }

  function Step(h: Handler, m: Machine, c: byte): Machine
    requires Ok(m)
  {
    if m.target == Nowhere then
      React(h, m.(passed := if m.passing then m.passed + [c] else m.passed), OnByte(m.state, c))
    else
      var n := Fill(m, [c]);
      if n.left == 0 then React(h, n, OnDone(m.state, n.read)) else n
  }

  lemma StepIsOk(h: Handler, m: Machine, c: byte)
    requires Positive(h) && Ok(m)
    ensures Ok(Step(h, m, c))
  {
  }

  // All bytes until the state is negative, and the bytes left over.
  function Run(h: Handler, m: Machine, data: seq<byte>): (r: (Machine, seq<byte>))
    requires Positive(h) && Ok(m)
    ensures Ok(r.0) && (r.1 == [] || r.0.state < 0)
    decreases |data|
  {
    if data == [] || m.state < 0 then (m, data)
    else
      StepIsOk(h, m, data[0]);
      Run(h, Step(h, m, data[0]), data[1..])
  }

  lemma {:induction false} RunConcat(h: Handler, m: Machine, a: seq<byte>, b: seq<byte>)
    requires Positive(h) && Ok(m)
    ensures var (n, rest) := Run(h, m, a);
      Run(h, m, a + b) == if rest == [] then Run(h, n, b) else (n, rest + b)
    decreases |a|
  {
    if a == [] {
      assert a + b == b;
    } else if m.state >= 0 {
      StepIsOk(h, m, a[0]);
      assert (a + b)[0] == a[0] && (a + b)[1..] == a[1..] + b;
      RunConcat(h, Step(h, m, a[0]), a[1..], b);
    }
  }

  lemma FillTwice(m: Machine, a: seq<byte>, b: seq<byte>)
    requires |a| + |b| <= m.left
    ensures Fill(Fill(m, a), b) == Fill(m, a + b)
  {
    assert m.read + a + b == m.read + (a + b);
    assert m.passed + a + b == m.passed + (a + b);
  }

  // Bytes of a request that does not finish yet all go to it.
  lemma {:induction false} RunFill(h: Handler, m: Machine, bytes: seq<byte>)
    requires Positive(h) && Ok(m) && m.state >= 0 && |bytes| < m.left
    ensures Run(h, m, bytes) == (Fill(m, bytes), [])
    decreases |bytes|
  {
    if bytes == [] {
      assert m.read + [] == m.read && m.passed + [] == m.passed;
    } else {
      var n := Fill(m, [bytes[0]]);
      assert bytes == [bytes[0]] + bytes[1..];
      FillTwice(m, [bytes[0]], bytes[1..]);
      RunFill(h, n, bytes[1..]);
    }
  }

  // Exactly the bytes a request still wants finish it.
  lemma RunFinish(h: Handler, m: Machine, bytes: seq<byte>)
    requires Positive(h) && Ok(m) && m.state >= 0 && |bytes| == m.left > 0
    ensures var n := Fill(m, bytes); Run(h, m, bytes) == (React(h, n, OnDone(m.state, n.read)), [])
  {
    var k := |bytes| - 1;
    var most, c := bytes[..k], bytes[k];
    assert bytes == most + [c];
    RunConcat(h, m, most, [c]);
    RunFill(h, m, most);
    FillTwice(m, most, [c]);
    assert [c][1..] == [];
  }

  // What is passed on has no bearing on the rest.
  lemma StepPasses(h: Handler, m: Machine, c: byte)
    requires Positive(h) && Ok(m) && (m.target == Nowhere || m.target == ToBuffer)
    ensures Step(h, m, c).passed == if m.passing then m.passed + [c] else m.passed
    ensures Step(h, m, c).(passed := []) == Step(h, m.(passed := []), c).(passed := [])
  {
  }

  lemma RunOneMore(h: Handler, m: Machine, data: seq<byte>, k: nat, n: Machine)
    requires Positive(h) && Ok(m) && k < |data| && Run(h, m, data[..k]) == (n, []) && n.state >= 0
    ensures Run(h, m, data[..k + 1]) == (Step(h, n, data[k]), [])
  {
    assert data[..k + 1] == data[..k] + [data[k]];
    RunConcat(h, m, data[..k], [data[k]]);
    RunOne(h, n, data[k]);
  }

  lemma RunOne(h: Handler, m: Machine, c: byte)
    requires Positive(h) && Ok(m) && m.state >= 0
    ensures Run(h, m, [c]) == (Step(h, m, c), [])
  {
    assert [c][1..] == [];
  }

  lemma RunSlice(h: Handler, m: Machine, data: seq<byte>, done: nat, k: nat, n: Machine) returns (total: nat)
    requires Positive(h) && Ok(m) && Ok(n) && done + k <= |data| && Run(h, m, data[..done]) == (n, [])
    ensures total == done + k && data[done..][k..] == data[total..]
    ensures Run(h, m, data[..total]) == Run(h, n, data[done..][..k])
  {
    total := done + k;
    assert data[..total] == data[..done] + data[done..][..k];
    RunConcat(h, m, data[..done], data[done..][..k]);
  }

  lemma RunTail(h: Handler, m: Machine, data: seq<byte>, done: nat, n: Machine)
    requires Positive(h) && Ok(m) && Ok(n) && done <= |data| && Run(h, m, data[..done]) == (n, [])
    requires data[done..] == [] || n.state < 0
    ensures Run(h, m, data) == (n, data[done..])
  {
    assert data == data[..done] + data[done..];
    RunConcat(h, m, data[..done], data[done..]);
    RunStays(h, n, data[done..]);
  }

  lemma RunStays(h: Handler, m: Machine, rest: seq<byte>)
    requires Positive(h) && Ok(m) && (rest == [] || m.state < 0)
    ensures Run(h, m, rest) == (m, rest)
  {
  }

  lemma OneMore(before: seq<byte>, data: seq<byte>, k: nat)
    requires k < |data|
    ensures before + data[..k] + [data[k]] == before + data[..k + 1]
  {
  }

  // ----- what every call gets ----------------------------------------------------------------

  // What was asked for before call number i, and at last: the first request, and then what
  // on_state asked for.
  function Asked(h: Handler, first: Reaction, calls: seq<Call>, i: nat): Reaction
    requires i <= |calls|
  {
    if i == 0 then first else h(calls[..i])
  }

  // A request takes as many bytes as it asks for, and without one there is a call for each byte.
  function Share(r: Reaction): nat {
    if r.target == Nowhere then 1 else r.size
  }

  // Where the bytes of call number i begin.
  function Begin(h: Handler, first: Reaction, calls: seq<Call>, i: nat): nat
    requires i <= |calls|
  {
    if i == 0 then 0 else Begin(h, first, calls, i - 1) + Share(Asked(h, first, calls, i - 1))
  }

  predicate Passes(r: Reaction) {
    r.passing || r.target == ToPass
  }

  // Call number i is made in the state that was asked for, which is not negative, and with its own
  // piece of the input: one byte, or all that was read, or nothing of what was passed.
  ghost predicate CallTells(h: Handler, first: Reaction, calls: seq<Call>, taken: seq<byte>, i: nat)
    requires i < |calls|
  {
    var r := Asked(h, first, calls, i);
    var from, to := Begin(h, first, calls, i), Begin(h, first, calls, i + 1);
    && r.next >= 0 && from < to <= |taken|
    && calls[i] ==
      match r.target
      case Nowhere => OnByte(r.next, taken[from])
      case ToPass => OnDone(r.next, [])
      case _ => OnDone(r.next, taken[from..to])
  }

  // The pieces of the first i calls that were passed on.
  ghost function PassedBy(h: Handler, first: Reaction, calls: seq<Call>, taken: seq<byte>, i: nat): seq<byte>
    requires i <= |calls| && Begin(h, first, calls, i) <= |taken|
  {
    if i == 0 then []
    else
      var from, to := Begin(h, first, calls, i - 1), Begin(h, first, calls, i);
      PassedBy(h, first, calls, taken, i - 1)
        + if Passes(Asked(h, first, calls, i - 1)) then taken[from..to] else []
  }

  // The bytes taken are cut up among the calls made, and the request under way has the rest.
  ghost predicate Accounts(h: Handler, first: Reaction, m: Machine, taken: seq<byte>) {
    var n := |m.calls|;
    && (forall i {:trigger CallTells(h, first, m.calls, taken, i)} :: 0 <= i < n ==>
         CallTells(h, first, m.calls, taken, i))
    && Begin(h, first, m.calls, n) <= |taken|
    && var r, rest := Asked(h, first, m.calls, n), taken[Begin(h, first, m.calls, n)..];
       && m.state == r.next && m.passing == r.passing && m.target == r.target
       && |rest| + m.left == (if r.target == Nowhere then 0 else r.size)
       && (r.target != Nowhere ==> m.left > 0)
       && m.read == (if r.target == ToPass then [] else rest)
       && m.passed == PassedBy(h, first, m.calls, taken, n) + if Passes(r) then rest else []
  }

  lemma {:induction false} BeginSame(h: Handler, first: Reaction, calls: seq<Call>, more: seq<Call>, i: nat)
    requires i <= |calls| && calls <= more
    ensures Asked(h, first, more, i) == Asked(h, first, calls, i)
    ensures Begin(h, first, more, i) == Begin(h, first, calls, i)
  {
    assert more[..i] == calls[..i];
    if i > 0 {
      BeginSame(h, first, calls, more, i - 1);
    }
  }

  lemma {:induction false} PassedSame(h: Handler, first: Reaction, calls: seq<Call>, more: seq<Call>,
                                      taken: seq<byte>, longer: seq<byte>, i: nat)
    requires i <= |calls| && calls <= more && taken <= longer && Begin(h, first, calls, i) <= |taken|
    ensures Begin(h, first, more, i) <= |longer|
    ensures PassedBy(h, first, more, longer, i) == PassedBy(h, first, calls, taken, i)
  {
    BeginSame(h, first, calls, more, i);
    if i > 0 {
      BeginSame(h, first, calls, more, i - 1);
      PassedSame(h, first, calls, more, taken, longer, i - 1);
      var from, to := Begin(h, first, calls, i - 1), Begin(h, first, calls, i);
      assert taken[from..to] == longer[from..to];
    }
  }

  lemma CallsSame(h: Handler, first: Reaction, calls: seq<Call>, more: seq<Call>, taken: seq<byte>, longer: seq<byte>)
    requires calls <= more && taken <= longer
    requires forall i {:trigger CallTells(h, first, calls, taken, i)} :: 0 <= i < |calls| ==>
      CallTells(h, first, calls, taken, i)
    ensures forall i {:trigger CallTells(h, first, more, longer, i)} :: 0 <= i < |calls| ==>
      CallTells(h, first, more, longer, i)
  {
    forall i {:trigger CallTells(h, first, more, longer, i)} | 0 <= i < |calls|
      ensures CallTells(h, first, more, longer, i)
    {
      assert CallTells(h, first, calls, taken, i);
      BeginSame(h, first, calls, more, i);
      BeginSame(h, first, calls, more, i + 1);
      var from, to := Begin(h, first, calls, i), Begin(h, first, calls, i + 1);
      assert taken[from..to] == longer[from..to];
    }
  }

  // The call that ends the request under way, or is for a byte.
  ghost predicate Ends(h: Handler, first: Reaction, m: Machine, taken: seq<byte>, c: byte, call: Call)
    requires Begin(h, first, m.calls, |m.calls|) <= |taken|
  {
    call == match m.target
      case Nowhere => OnByte(m.state, c)
      case ToPass => OnDone(m.state, [])
      case _ => OnDone(m.state, taken[Begin(h, first, m.calls, |m.calls|)..] + [c])
  }

  lemma NewCallTells(h: Handler, first: Reaction, m: Machine, taken: seq<byte>, c: byte, call: Call)
    requires Positive(h) && Ok(m) && Accounts(h, first, m, taken) && m.state >= 0 && m.left <= 1
    requires Ends(h, first, m, taken, c, call)
    ensures var k, more := |m.calls|, m.calls + [call];
      && CallTells(h, first, more, taken + [c], k) && Begin(h, first, more, k + 1) == |taken| + 1
      && Asked(h, first, more, k) == Asked(h, first, m.calls, k)
      && Begin(h, first, more, k) == Begin(h, first, m.calls, k)
  {
    var k := |m.calls|;
    var from := Begin(h, first, m.calls, k);
    BeginSame(h, first, m.calls, m.calls + [call], k);
    assert (taken + [c])[from..|taken| + 1] == taken[from..] + [c];
  }

  lemma CallsTell(h: Handler, first: Reaction, m: Machine, taken: seq<byte>, c: byte, call: Call)
    requires Positive(h) && Ok(m) && Accounts(h, first, m, taken) && m.state >= 0 && m.left <= 1
    requires Ends(h, first, m, taken, c, call)
    ensures forall i {:trigger CallTells(h, first, m.calls + [call], taken + [c], i)} :: 0 <= i < |m.calls| + 1 ==>
      CallTells(h, first, m.calls + [call], taken + [c], i)
  {
    NewCallTells(h, first, m, taken, c, call);
    CallsSame(h, first, m.calls, m.calls + [call], taken, taken + [c]);
  }

  lemma PassedMore(h: Handler, first: Reaction, m: Machine, taken: seq<byte>, c: byte, call: Call)
    requires Positive(h) && Ok(m) && Accounts(h, first, m, taken) && m.state >= 0 && m.left <= 1
    requires Ends(h, first, m, taken, c, call)
    ensures var k, more := |m.calls|, m.calls + [call];
      && Begin(h, first, more, k + 1) == |taken| + 1
      && PassedBy(h, first, more, taken + [c], k + 1)
         == m.passed + (if m.passing || m.target == ToPass then [c] else [])
  {
    var k, calls, longer := |m.calls|, m.calls, taken + [c];
    var from := Begin(h, first, calls, k);
    NewCallTells(h, first, m, taken, c, call);
    PassedSame(h, first, calls, calls + [call], taken, longer, k);
    assert longer[from..|longer|] == taken[from..] + [c];
    PassesOne(PassedBy(h, first, calls, taken, k), taken[from..], c, Passes(Asked(h, first, calls, k)));
  }

  // One more call, for all that was taken since the one before.
  lemma AccountsCall(h: Handler, first: Reaction, m: Machine, taken: seq<byte>, c: byte, call: Call, n: Machine)
    requires Positive(h) && Ok(m) && Accounts(h, first, m, taken) && m.state >= 0 && m.left <= 1
    requires Ends(h, first, m, taken, c, call) && n.calls == m.calls && n.state == m.state
    requires n.passed == m.passed + (if m.passing || m.target == ToPass then [c] else [])
    ensures Accounts(h, first, React(h, n, call), taken + [c])
  {
    CallsTell(h, first, m, taken, c, call);
    PassedMore(h, first, m, taken, c, call);
    assert (taken + [c])[|taken| + 1..] == [];
    assert (m.calls + [call])[..|m.calls| + 1] == m.calls + [call];
    assert n.passed + [] == n.passed;
  }

  lemma PassesOne(passed: seq<byte>, rest: seq<byte>, c: byte, passing: bool)
    ensures (passed + if passing then rest else []) + (if passing then [c] else [])
         == passed + (if passing then rest + [c] else [])
  {
  }

  lemma AccountsFill(h: Handler, first: Reaction, m: Machine, taken: seq<byte>, c: byte)
    requires Ok(m) && Accounts(h, first, m, taken) && m.left > 1
    ensures Accounts(h, first, Fill(m, [c]), taken + [c])
  {
    var k := |m.calls|;
    var from := Begin(h, first, m.calls, k);
    CallsSame(h, first, m.calls, m.calls, taken, taken + [c]);
    PassedSame(h, first, m.calls, m.calls, taken, taken + [c], k);
    assert (taken + [c])[from..] == taken[from..] + [c];
    PassesOne(PassedBy(h, first, m.calls, taken, k), taken[from..], c, Passes(Asked(h, first, m.calls, k)));
  }

  lemma StepAccounts(h: Handler, first: Reaction, m: Machine, taken: seq<byte>, c: byte)
    requires Positive(h) && Ok(m) && Accounts(h, first, m, taken) && m.state >= 0
    ensures Accounts(h, first, Step(h, m, c), taken + [c])
  {
    var rest := taken[Begin(h, first, m.calls, |m.calls|)..];
    if m.left > 1 {
      AccountsFill(h, first, m, taken, c);
    } else if m.target == Nowhere {
      var n := m.(passed := if m.passing then m.passed + [c] else m.passed);
      AccountsCall(h, first, m, taken, c, OnByte(m.state, c), n);
    } else {
      var n := Fill(m, [c]);
      AccountsCall(h, first, m, taken, c, OnDone(m.state, n.read), n);
    }
  }

  lemma FirstTaken(taken: seq<byte>, data: seq<byte>, more: seq<byte>, rest: seq<byte>) returns (took: seq<byte>)
    requires data != [] && data[1..] == more + rest
    ensures data == took + rest && taken + took == taken + [data[0]] + more
  {
    took := [data[0]] + more;
    assert data == [data[0]] + data[1..];
  }

  lemma TakenIs(all: seq<byte>, took: seq<byte>, rest: seq<byte>, data: seq<byte>)
    requires data == took + rest
    ensures all + took + rest == all + data
  {
  }

  // Of the data, what is not left over was taken, all of it to a state that is negative first
  // after its last byte.
  lemma {:induction false} RunAccounts(h: Handler, first: Reaction, m: Machine, taken: seq<byte>, data: seq<byte>)
    returns (took: seq<byte>)
    requires Positive(h) && Ok(m) && Accounts(h, first, m, taken)
    ensures data == took + Run(h, m, data).1
    ensures Accounts(h, first, Run(h, m, data).0, taken + took)
    decreases |data|
  {
    if data == [] || m.state < 0 {
      took := [];
      assert taken + [] == taken;
    } else {
      StepIsOk(h, m, data[0]);
      StepAccounts(h, first, m, taken, data[0]);
      var more := RunAccounts(h, first, Step(h, m, data[0]), taken + [data[0]], data[1..]);
      took := FirstTaken(taken, data, more, Run(h, m, data).1);
    }
  }

  // ----- with fast paths ---------------------------------------------------------------------

  function Flatten(passes: seq<seq<byte>>): seq<byte> {
    if passes == [] then [] else Flatten(passes[..|passes| - 1]) + passes[|passes| - 1]
  }

  class Deframer {
    const onState: Handler
    var state: int
    var passing: bool
    var needFlush: bool
    var readLength: nat
    var readPointer: nat
    var target: Target              // which of the three read pointers is set
    var read: seq<byte>             // what is behind it
    var output: seq<byte>
    var calls: seq<Call>            // the calls of on_state
    var passes: seq<seq<byte>>      // the calls of on_pass
    ghost const first: int          // the state it started in
    ghost var taken: seq<byte>      // all bytes taken

    ghost predicate Valid()
      reads this
    {
      && Positive(onState)
      && (target == ToBuffer ==> readPointer < readLength)
      && (readLength > 0 ==> target != Nowhere)
    }

    // The machine that this is, once the output buffer has been flushed.
    ghost function Abs(): (m: Machine)
      requires Valid()
      reads this
      ensures Ok(m)
    {
      if readLength == 0 then Machine(state, passing, Nowhere, 0, [], calls, Flatten(passes) + output)
      else Machine(state, passing, target, if target == ToBuffer then readLength - readPointer else readLength,
                   if target == ToPass then [] else read, calls, Flatten(passes) + output)
    }

    // Every call got its own piece of the bytes taken.
    ghost predicate Told()
      reads this
    {
      Valid() && Accounts(onState, Reaction(first, Nowhere, 0, false, false), Abs(), taken)
    }

    // reset(state)
    constructor (onState: Handler, state: int)
      requires Positive(onState)
      ensures Valid() && this.onState == onState && output == []
      ensures Abs() == Machine(state, false, Nowhere, 0, [], [], [])
      ensures Told() && taken == [] && first == state
    {
      first, taken := state, [];
      this.onState, this.state := onState, state;
      passing, needFlush, readLength, readPointer, target, read := false, false, 0, 0, Nowhere, [];
      output, calls, passes := [], [], [];
    }

    method Flush()
      modifies `output, `passes
      ensures output == [] && Flatten(passes) == old(Flatten(passes) + output)
    {
      if output != [] {
        passes := passes + [output];
        assert passes[..|passes| - 1] == old(passes);
        output := [];
      }
    }

    // The virtual call, with all that on_state may call on its part.
    method OnState(call: Call) returns (next: int)
      requires Positive(onState) && readLength == 0
      modifies `passing, `needFlush, `readLength, `readPointer, `target, `read, `calls
      ensures Valid() && calls == old(calls) + [call]
      ensures var r := onState(calls);
        && next == r.next && passing == r.passing && (needFlush <==> old(needFlush) || r.flush)
        && readLength == (if r.target == Nowhere then 0 else r.size)
        && (r.target != Nowhere ==> target == r.target && read == [] && readPointer == 0)
    {
      calls := calls + [call];
      var r := onState(calls);
      next := r.next;
      passing := r.passing;
      needFlush := needFlush || r.flush;
      target := r.target;
      if r.target != Nowhere {
        readLength, readPointer, read := r.size, 0, [];
      }
    }

    // Where the bytes of a read into anything but a buffer, or of a pass, go.
    method Deliver(readIn: seq<byte>)
      requires Valid() && readLength > 0 && target != ToBuffer && |readIn| <= readLength
      modifies `output, `passes, `read, `readLength
      ensures readLength == old(readLength) - |readIn|
      ensures var n := Fill(old(Abs()), readIn);
        Flatten(passes) + output == n.passed && (if target == ToPass then [] else read) == n.read
    {
      ghost var p, o := Flatten(passes), output;
      if passing {
        output := output + readIn;
      }
      if target == ToData || target == ToArray {
        read := read + readIn;
      } else if !passing {
        output := output + readIn;
        Flush();
      }
      readLength := readLength - |readIn|;
      assert p + o + readIn == p + (o + readIn);
    }

    // A finished request other than a read into a buffer.
    method Finish()
      requires Positive(onState) && readLength == 0
      modifies this
      ensures Valid()
      ensures var done := if old(target) == ToPass then [] else old(read);
        var m := Machine(old(state), old(passing), Nowhere, 0, [], old(calls), old(Flatten(passes) + output));
        Abs() == React(onState, m, OnDone(old(state), done))
    {
      var done := if target == ToPass then [] else read;
      var next := OnState(OnDone(state, done));
      if needFlush {
        Flush();
      }
      state := next;
    }

    // The bytes of a read into anything but a buffer, or of a pass, all at once.
    method Bulk(data: seq<byte>) returns (n: nat)
      requires Valid() && state >= 0 && data != [] && readLength > 0 && target != ToBuffer
      modifies this
      ensures Valid() && 0 < n <= |data|
      ensures Run(onState, old(Abs()), data[..n]) == (Abs(), [])
    {
      ghost var m := Abs();
      n := if readLength > |data| then |data| else readLength;
      ghost var readIn := data[..n];
      if n == readLength {
        RunFinish(onState, m, readIn);
      } else {
        RunFill(onState, m, readIn);
      }
      Deliver(data[..n]);
      if readLength == 0 {
        Finish();
      }
    }

    // One byte given to the scan: st is the state so far.
    method Feed(st: int, c: byte) returns (next: int)
      requires Valid() && (readLength == 0 || target == ToBuffer)
      modifies `passing, `needFlush, `readLength, `readPointer, `target, `read, `calls
      ensures Valid()
      ensures var m := old(Abs()).(state := st, passed := []);
        Abs().(state := next, passed := []) == Step(onState, m, c).(passed := [])
    {
      if readLength > 0 {
        read := read + [c];
        readPointer := readPointer + 1;
        if readPointer >= readLength {
          var done := read;
          readLength, target := 0, Nowhere;
          next := OnState(OnDone(st, done));
        } else {
          next := st;
        }
      } else {
        next := OnState(OnByte(st, c));
      }
    }

    // What the machine is amid a scan, after the bytes taken.
    ghost function Amid(st: int, before: seq<byte>, was: bool, taken: seq<byte>): Machine
      requires Valid()
      reads this
    {
      Abs().(state := st, passed := if was then before + taken else before)
    }

    // One more byte of a scan that passed nothing on yet.
    method FeedNext(st: int, data: seq<byte>, k: nat, ghost m: Machine, ghost before: seq<byte>, ghost was: bool)
      returns (next: int)
      requires Valid() && Ok(m) && st >= 0 && k < |data| && passing == was && (readLength == 0 || target == ToBuffer)
      requires Run(onState, m, data[..k]) == (Amid(st, before, was, data[..k]), [])
      modifies `passing, `needFlush, `readLength, `readPointer, `target, `read, `calls
      ensures Valid() && Run(onState, m, data[..k + 1]) == (Amid(next, before, was, data[..k + 1]), [])
    {
      ghost var n := Amid(st, before, was, data[..k]);
      RunOneMore(onState, m, data, k, n);
      StepPasses(onState, n, data[k]);
      OneMore(before, data, k);
      next := Feed(st, data[k]);
    }

    // What a scan passes on, all at once.
    method Conclude(st: int, taken: seq<byte>, was: bool)
      requires Valid()
      modifies `output, `passes, `state
      ensures Valid() && Abs() == old(Amid(st, Flatten(passes) + output, was, taken))
    {
      ghost var p, o := Flatten(passes), output;
      if was {
        output := output + taken;
        assert p + output == p + o + taken;
      }
      if needFlush {
        Flush();
      }
      state := st;
    }

    // Bytes one by one, until the state is negative, or a flush, a read or a change of passing
    // is asked for.
    method Scan(data: seq<byte>) returns (k: nat)
      requires Valid() && state >= 0 && data != [] && (readLength == 0 || target == ToBuffer)
      modifies this
      ensures Valid() && 0 < k <= |data|
      ensures Run(onState, old(Abs()), data[..k]) == (Abs(), [])
    {
      ghost var m, before := Abs(), Flatten(passes) + output;
      var st, was := state, passing;
      needFlush := false;
      k := 0;
      var stop := false;
      assert before + [] == before && data[..0] == [];
      while k < |data| && !stop
        invariant Valid() && k <= |data| && (stop ==> k > 0) && Flatten(passes) + output == before
        invariant Run(onState, m, data[..k]) == (Amid(st, before, was, data[..k]), [])
        invariant !stop ==> st >= 0 && passing == was && (readLength == 0 || target == ToBuffer)
      {
        st := FeedNext(st, data, k, m, before, was);
        k := k + 1;
        stop := st < 0 || needFlush || (readLength > 0 && target != ToBuffer) || passing != was;
      }
      Conclude(st, data[..k], was);
    }

    method Round(data: seq<byte>) returns (k: nat)
      requires Valid() && state >= 0 && data != []
      modifies this
      ensures Valid() && 0 < k <= |data|
      ensures Run(onState, old(Abs()), data[..k]) == (Abs(), [])
    {
      if readLength > 0 && target != ToBuffer {
        k := Bulk(data);
      } else {
        k := Scan(data);
      }
    }

    // The rounds of deframe.
    method Rounds(data: seq<byte>) returns (rest: seq<byte>)
      requires Valid()
      modifies this
      ensures Valid() && Run(onState, old(Abs()), data) == (Abs(), rest)
    {
      ghost var m := Abs();
      rest := data;
      ghost var done := 0;
      assert data[..0] == [];
      while rest != [] && state >= 0
        invariant Valid() && done <= |data| && rest == data[done..]
        invariant Run(onState, m, data[..done]) == (Abs(), [])
        decreases |rest|
      {
        ghost var n := Abs();
        var k := Round(rest);
        done := RunSlice(onState, m, data, done, k, n);
        rest := rest[k..];
      }
      RunTail(onState, m, data, done, Abs());
    }

    method FlushRest()
      requires Valid()
      modifies `output, `passes
      ensures Valid() && output == [] && Abs() == old(Abs())
    {
      Flush();
      assert Flatten(passes) + [] == Flatten(passes);
    }

    method RoundsAndFlush(data: seq<byte>) returns (rest: seq<byte>)
      requires Valid()
      modifies this
      ensures Valid() && output == [] && Run(onState, old(Abs()), data) == (Abs(), rest)
    {
      rest := Rounds(data);
      FlushRest();
    }

    // Whatever the cuts, this does what the machine does byte by byte: the same calls, the same
    // bytes in every read, the same bytes passed on, the same bytes left over. So every call gets
    // its own piece of all that was taken so far.
    method Deframe(data: seq<byte>) returns (rest: seq<byte>)
      requires Told() && output == []
      modifies this
      ensures Told() && output == []
      ensures taken + rest == old(taken) + data && old(taken) <= taken && (rest == [] || state < 0)
      ensures Run(onState, old(Abs()), data) == (Abs(), rest)
    {
      ghost var m, all := Abs(), taken;
      ghost var took := RunAccounts(onState, Reaction(first, Nowhere, 0, false, false), m, all, data);
      rest := RoundsAndFlush(data);
      TakenIs(all, took, rest, data);
      taken := all + took;
    }
  }

  // ----- any cut -------------------------------------------------------------------------------

  function Concat(chunks: seq<seq<byte>>): seq<byte> {
    if chunks == [] then [] else chunks[0] + Concat(chunks[1..])
  }

  // The chunks one after the other, and all that is left over.
  function RunAll(h: Handler, m: Machine, chunks: seq<seq<byte>>): (r: (Machine, seq<byte>))
    requires Positive(h) && Ok(m)
    decreases |chunks|
  {
    if chunks == [] then (m, [])
    else
      var (n, rest) := Run(h, m, chunks[0]);
      var (last, others) := RunAll(h, n, chunks[1..]);
      (last, rest + others)
  }

  lemma {:induction false} Stopped(h: Handler, m: Machine, chunks: seq<seq<byte>>)
    requires Positive(h) && Ok(m) && m.state < 0
    ensures RunAll(h, m, chunks) == (m, Concat(chunks))
    decreases |chunks|
  {
    if chunks != [] {
      Stopped(h, m, chunks[1..]);
    }
  }

  // No cut makes a difference.
  lemma {:induction false} CutsDoNotMatter(h: Handler, m: Machine, chunks: seq<seq<byte>>)
    requires Positive(h) && Ok(m)
    ensures RunAll(h, m, chunks) == Run(h, m, Concat(chunks))
    decreases |chunks|
  {
    if chunks != [] {
      var (n, rest) := Run(h, m, chunks[0]);
      RunConcat(h, m, chunks[0], Concat(chunks[1..]));
      if rest == [] {
        CutsDoNotMatter(h, n, chunks[1..]);
        assert rest + RunAll(h, n, chunks[1..]).1 == RunAll(h, n, chunks[1..]).1;
      } else {
        Stopped(h, n, chunks[1..]);
      }
    }
  }
}
