/**
 Calling a PAWN public on every loaded script. The abstract machine is a heap that grows up and a stack that
 grows down in one block of cells, with a margin kept between them; it lets neither Allot nor Push take it.
 */
module Amx {
  import opened Bytes

  type cell = c: int | -0x8000_0000 <= c <= 0x7FFF_FFFF

  datatype Arg = Num(num: cell) | Text(str: bytes)

  /** What a public is called with: its arguments as it sees them, first to last, and the heap they may point into. */
  datatype Invocation = Invocation(index: nat, args: seq<cell>, heap: seq<cell>)

  const MARGIN: nat := 16
  const NUL: byte := 0

  /** Where a C string ends: at its first NUL, or after all its bytes. */
  predicate StringEnd(str: bytes, n: nat) {
    n <= |str| && 0 !in str[..n] && (n == |str| || str[n] == 0)
  }

  lemma OneStringEnd(str: bytes, n: nat, m: nat)
    requires StringEnd(str, n) && StringEnd(str, m)
    ensures n == m
  {
    IndexOfUnique(str, 0, n);
    IndexOfUnique(str, 0, m);
  }

  /** A C string as an unpacked PAWN string: a cell a character, up to the first NUL. */
  function Unpacked(str: bytes): (cells: seq<cell>)
    ensures StringEnd(str, |cells|) && NUL !in cells
    ensures forall i | 0 <= i < |cells| :: cells[i] == str[i]
  {
    var n := IndexOf(str, NUL);
    assert forall i | 0 <= i < n :: str[i] == str[..n][i] && str[..n][i] in str[..n];
    seq(n, i requires 0 <= i < n => str[i] as cell)
  }

  /** A script's data: cells of heap and stack, `limit` of them together. `params` counts what was pushed for the
      next call. `calls` is the history of the calls made to its publics. */
  class Script {
    const publics: map<bytes, nat>
    const limit: nat
    var heap: seq<cell>
    var stack: seq<cell>
    var params: nat
    ghost var calls: seq<Invocation>

    ghost predicate Valid()
      reads this
    {
      |heap| + |stack| <= limit <= 0x7FFF_FFFF && params <= |stack|
    }

    function Room(): int
      reads this
    {
      limit - |heap| - |stack|
    }

    constructor (publics: map<bytes, nat>, limit: nat)
      requires limit <= 0x7FFF_FFFF
      ensures Valid() && heap == stack == [] && params == 0 && calls == []
      ensures this.publics == publics && this.limit == limit
    {
      this.publics, this.limit := publics, limit;
      heap, stack, params, calls := [], [], 0, [];
    }

    /** `cells` more cells of heap, if the margin remains. What they hold is whatever was there. */
    method Allot(cells: nat) returns (ok: bool, addr: nat)
      requires Valid()
      modifies this`heap
      ensures Valid()
      ensures ok <==> old(Room()) - cells >= MARGIN
      ensures ok ==> addr == |old(heap)| && |heap| == addr + cells && heap[..addr] == old(heap)
      ensures !ok ==> heap == old(heap)
    {
      addr := |heap|;
      ok := Room() - cells >= MARGIN;
      if ok {
        var found: seq<cell> := seq(cells, _ => 0);
        var junk: seq<cell> := *;
        heap := heap + if |junk| == cells then junk else found;
      }
    }

    /** A string and its terminator, into cells it fits in. */
    method SetString(addr: nat, str: bytes, size: nat)
      requires Valid() && |Unpacked(str)| < size && addr + size <= |heap|
      modifies this`heap
      ensures Valid() && |heap| == |old(heap)|
      ensures heap[..addr] == old(heap)[..addr]
      ensures heap[addr..addr + |Unpacked(str)| + 1] == Unpacked(str) + [NUL]
      ensures heap[addr + |Unpacked(str)| + 1..] == old(heap)[addr + |Unpacked(str)| + 1..]
    {
      heap := heap[..addr] + (Unpacked(str) + [NUL]) + heap[addr + |Unpacked(str)| + 1..];
    }

    /** The heap down to `addr`. */
    method Release(addr: nat)
      requires Valid()
      modifies this`heap
      ensures Valid() && heap == if |old(heap)| > addr then old(heap)[..addr] else old(heap)
    {
      if |heap| > addr {
        heap := heap[..addr];
      }
    }

    method Push(value: cell) returns (ok: bool)
      requires Valid()
      modifies this`stack, this`params
      ensures Valid()
      ensures ok <==> old(Room()) >= MARGIN
      ensures if ok then stack == old(stack) + [value] && params == old(params) + 1
              else stack == old(stack) && params == old(params)
    {
      ok := Room() >= MARGIN;
      if ok {
        stack, params := stack + [value], params + 1;
      }
    }

    /** Runs a public on what was pushed for it. What was pushed last is its first argument. However it ends, the
        heap and the stack are as high as before the pushes; it may have written anything into its memory. */
    method Exec(index: nat)
      requires Valid()
      modifies this`heap, this`stack, this`params, this`calls
      ensures Valid() && params == 0
      ensures stack == old(stack)[..|old(stack)| - old(params)]
      ensures |heap| == |old(heap)|
      ensures calls == old(calls) + [Invocation(index, Reversed(old(stack)[|old(stack)| - old(params)..]), old(heap))]
    {
      calls := calls + [Invocation(index, Reversed(stack[|stack| - params..]), heap)];
      stack, params := stack[..|stack| - params], 0;
      var written: seq<cell> := *;
      if |written| == |heap| {
        heap := written;
      }
    }
  }

  function Reversed(s: seq<cell>): (r: seq<cell>)
    ensures |r| == |s| && forall i | 0 <= i < |s| :: r[i] == s[|s| - 1 - i]
  {
    seq(|s|, i requires 0 <= i < |s| => s[|s| - 1 - i])
  }

  /** The heap cells an argument takes: a string's, one a byte and one more. */
  function Cells(arg: Arg): nat {
    if arg.Text? then |arg.str| + 1 else 0
  }

  function TotalCells(args: seq<Arg>): nat {
    if args == [] then 0 else Cells(args[0]) + TotalCells(args[1..])
  }

  /** A string takes a cell for every byte and one for its end, a number none. */
  lemma CellsTaken(str: bytes, num: cell, rest: seq<Arg>)
    ensures TotalCells([Text(str)] + rest) == |str| + 1 + TotalCells(rest)
    ensures TotalCells([Num(num)] + rest) == TotalCells(rest) && TotalCells([]) == 0
  {
    assert ([Text(str)] + rest)[1..] == rest && ([Num(num)] + rest)[1..] == rest;
  }

  /** Where argument `a` is, if it is a string: above the strings of the arguments after it. */
  function AddressOf(args: seq<Arg>, a: nat, base: nat): nat
    requires a < |args|
  {
    base + TotalCells(args[a + 1..])
  }

  lemma {:induction false} TotalDrops(args: seq<Arg>, a: nat)
    requires a < |args|
    ensures TotalCells(args[a..]) == Cells(args[a]) + TotalCells(args[a + 1..])
    ensures TotalCells(args[a..]) <= TotalCells(args)
    decreases a
  {
    assert args[a..][0] == args[a] && args[a..][1..] == args[a + 1..];
    if a > 0 {
      TotalDrops(args, a - 1);
    } else {
      assert args[0..] == args;
    }
  }

  lemma {:induction false} LaterIsLower(args: seq<Arg>, a: nat, b: nat, base: nat)
    requires a < b < |args|
    ensures AddressOf(args, b, base) + Cells(args[b]) <= AddressOf(args, a, base)
    decreases b - a
  {
    TotalDrops(args, a + 1);
    TotalDrops(args, b);
    if b > a + 1 {
      LaterIsLower(args, a + 1, b, base);
    }
  }

  /** Argument `a` as the public sees it: a number itself, a string as the address of its terminated cells. */
  ghost predicate Seen(value: cell, arg: Arg, addr: nat, heap: seq<cell>) {
    match arg
    case Num(num) => value == num
    case Text(str) =>
      && value == addr
      && addr + |str| + 1 <= |heap|
      && forall n | StringEnd(str, n) :: heap[addr + n] == 0 && forall i | 0 <= i < n :: heap[addr + i] == str[i]
  }

  /** A string without a NUL in it arrives whole. */
  lemma ArrivesWhole(value: cell, str: bytes, addr: nat, heap: seq<cell>)
    requires Seen(value, Text(str), addr, heap) && 0 !in str
    ensures value == addr && addr + |str| < |heap| && heap[addr + |str|] == 0
    ensures forall i | 0 <= i < |str| :: heap[addr + i] == str[i]
  {
    assert str[..|str|] == str && StringEnd(str, |str|);
  }

  /** An unpacked string and its terminator are what is to be seen. */
  lemma UnpackedIsSeen(str: bytes, addr: cell, heap: seq<cell>)
    requires 0 <= addr && addr + |str| + 1 <= |heap|
    requires heap[addr..addr + |Unpacked(str)| + 1] == Unpacked(str) + [NUL]
    ensures Seen(addr, Text(str), addr, heap)
  {
    var cells := Unpacked(str);
    var written := heap[addr..addr + |cells| + 1];
    forall n: nat | StringEnd(str, n)
      ensures heap[addr + n] == 0 && forall i | 0 <= i < n :: heap[addr + i] == str[i]
    {
      OneStringEnd(str, n, |cells|);
      assert written[n] == NUL && forall i | 0 <= i < n :: written[i] == cells[i] == heap[addr + i];
    }
  }

  lemma SeenStays(value: cell, arg: Arg, addr: nat, heap: seq<cell>, more: seq<cell>)
    requires Seen(value, arg, addr, heap) && heap <= more
    ensures Seen(value, arg, addr, more)
  {
  }

  /** Two string arguments of one call share no cell. */
  lemma RegionsAreDisjoint(args: seq<Arg>, a: nat, b: nat, base: nat)
    requires a < |args| && b < |args| && a != b && args[a].Text? && args[b].Text?
    ensures AddressOf(args, a, base) + Cells(args[a]) <= AddressOf(args, b, base)
         || AddressOf(args, b, base) + Cells(args[b]) <= AddressOf(args, a, base)
  {
    if a < b {
      LaterIsLower(args, a, b, base);
    } else {
      LaterIsLower(args, b, a, base);
    }
  }

  /** How many of `n` pushes succeed with `room` cells left. */
  function PushesThatFit(n: nat, room: int): nat {
    if room < MARGIN then 0 else if room - MARGIN + 1 < n then room - MARGIN + 1 else n
  }

  /** What is pushed for an argument, a string being at `addr`. */
  function ValueOf(arg: Arg, addr: cell): cell {
    match arg
    case Num(num) => num
    case Text(_) => addr
  }

  /** The last arguments, the very last of them first. */
  predicate LastPushed(pushed: seq<cell>, args: seq<Arg>, addrs: seq<cell>)
    requires |addrs| == |args|
  {
    && |pushed| <= |args|
    && forall i | 0 <= i < |pushed| :: pushed[i] == ValueOf(args[|args| - 1 - i], addrs[|args| - 1 - i])
  }

  /** The last arguments, in declared order. */
  ghost predicate SeesLast(seen: seq<cell>, args: seq<Arg>, base: nat, heap: seq<cell>) {
    && |seen| <= |args|
    && forall j | 0 <= j < |seen| ::
         Seen(seen[j], args[|args| - |seen| + j], AddressOf(args, |args| - |seen| + j, base), heap)
  }

  lemma SeenInOrder(pushed: seq<cell>, args: seq<Arg>, addrs: seq<cell>, base: nat, heap: seq<cell>)
    requires |addrs| == |args| && LastPushed(pushed, args, addrs)
    requires forall a | 0 <= a < |args| && args[a].Text? :: Seen(addrs[a], args[a], AddressOf(args, a, base), heap)
    ensures SeesLast(Reversed(pushed), args, base, heap)
  {
    hide AddressOf, Unpacked;
    var seen := Reversed(pushed);
    forall j | 0 <= j < |seen|
      ensures Seen(seen[j], args[|args| - |seen| + j], AddressOf(args, |args| - |seen| + j, base), heap)
    {
      assert seen[j] == pushed[|pushed| - 1 - j];
    }
  }

  class AmxCallback {
    const name: bytes
    var args: seq<Arg>

    constructor (name: bytes)
      ensures this.name == name && args == []
    {
      this.name := name;
      args := [];
    }

    method Int(value: cell)
      modifies this
      ensures args == old(args) + [Num(value)]
    {
      args := args + [Num(value)];
    }

    /** A 64-bit value, held within a cell. */
    method Int64(value: int)
      modifies this
      ensures |args| == |old(args)| + 1 && args[..|old(args)|] == old(args) && args[|old(args)|].Num?
      ensures var num := args[|old(args)|].num;
              if -0x8000_0000 <= value <= 0x7FFF_FFFF then num == value
              else if value > 0 then num == 0x7FFF_FFFF else num == -0x8000_0000
    {
      if value > 0x7FFF_FFFF {
        Int(0x7FFF_FFFF);
      } else if value < -0x8000_0000 {
        Int(-0x8000_0000);
      } else {
        Int(value);
      }
    }

    method Str(value: bytes)
      modifies this
      ensures args == old(args) + [Text(value)]
    {
      args := args + [Text(value)];
    }

    /** One string at the top of the heap. */
    static method AllocateString(amx: Script, str: bytes) returns (ok: bool, addr: nat)
      requires amx.Valid()
      modifies amx`heap
      ensures amx.Valid()
      ensures ok <==> old(amx.Room()) - (|str| + 1) >= MARGIN
      ensures ok ==> addr == |old(amx.heap)| && |amx.heap| == addr + |str| + 1 && old(amx.heap) <= amx.heap
      ensures ok ==> Seen(addr, Text(str), addr, amx.heap)
      ensures !ok ==> amx.heap == old(amx.heap)
    {
      hide Unpacked;
      var cells := |str| + 1;
      ok, addr := amx.Allot(cells);
      if ok {
        amx.SetString(addr, str, cells);
        UnpackedIsSeen(str, addr, amx.heap);
      }
    }

    /** Puts every string argument on the heap, the last one lowest; on failure the heap is as it was and `addrs`
        is of no use. */
    method AllocateStrings(amx: Script) returns (ok: bool, addrs: seq<cell>, claimed: bool, first: nat)
      requires amx.Valid()
      modifies amx`heap
      ensures amx.Valid()
      ensures ok <==> TotalCells(args) == 0 || amx.limit - |old(amx.heap)| - |amx.stack| - TotalCells(args) >= MARGIN
      ensures !ok ==> amx.heap == old(amx.heap)
      ensures ok ==> claimed == (TotalCells(args) > 0) && (claimed ==> first == |old(amx.heap)|)
      ensures ok ==> |addrs| == |args| && |amx.heap| == |old(amx.heap)| + TotalCells(args)
      ensures ok ==> amx.heap[..|old(amx.heap)|] == old(amx.heap)
      ensures ok ==> forall a | 0 <= a < |args| && args[a].Text? ::
                       Seen(addrs[a], args[a], AddressOf(args, a, |old(amx.heap)|), amx.heap)
    {
      hide Seen, Unpacked;
      ghost var base := |amx.heap|;
      addrs := seq(|args|, _ => 0);
      claimed, first := false, 0;
      var a := |args|;
      while a > 0
        invariant amx.Valid() && 0 <= a <= |args| && |addrs| == |args|
        invariant |amx.heap| == base + TotalCells(args[a..]) && amx.heap[..base] == old(amx.heap)
        invariant claimed == (TotalCells(args[a..]) > 0)
        invariant claimed ==> first == base && amx.Room() >= MARGIN
        invariant forall k | a <= k < |args| && args[k].Text? ::
                    Seen(addrs[k], args[k], AddressOf(args, k, base), amx.heap)
      {
        a := a - 1;
        TotalDrops(args, a);
        if args[a].Num? {
          continue;
        }
        ghost var before := amx.heap;
        var got, addr := AllocateString(amx, args[a].str);
        if !got {
          if claimed {
            amx.Release(first);
          }
          assert amx.heap == old(amx.heap);
          return false, addrs, claimed, first;
        }
        if !claimed {
          first, claimed := addr, true;
        }
        forall k | a < k < |args| && args[k].Text?
          ensures Seen(addrs[k], args[k], AddressOf(args, k, base), amx.heap)
        {
          SeenStays(addrs[k], args[k], AddressOf(args, k, base), before, amx.heap);
        }
        addrs := addrs[a := addr];
      }
      assert args[0..] == args;
      ok := true;
    }

    /** Pushes the arguments, the last one first. The stack's own room decides how many get there. */
    method PushArguments(amx: Script, addrs: seq<cell>)
      requires amx.Valid() && amx.params == 0 && |addrs| == |args|
      modifies amx`stack, amx`params
      ensures amx.Valid() && amx.params == PushesThatFit(|args|, old(amx.Room()))
      ensures |amx.stack| == |old(amx.stack)| + amx.params && amx.stack[..|old(amx.stack)|] == old(amx.stack)
      ensures LastPushed(amx.stack[|old(amx.stack)|..], args, addrs)
    {
      var a := |args|;
      while a > 0
        invariant amx.Valid() && 0 <= a <= |args|
        invariant amx.params == PushesThatFit(|args| - a, old(amx.Room()))
        invariant |amx.stack| == |old(amx.stack)| + amx.params && amx.stack[..|old(amx.stack)|] == old(amx.stack)
        invariant LastPushed(amx.stack[|old(amx.stack)|..], args, addrs)
      {
        a := a - 1;
        ghost var pushed := amx.stack[|old(amx.stack)|..];
        var ok := amx.Push(ValueOf(args[a], addrs[a]));
        if ok {
          assert amx.stack[|old(amx.stack)|..] == pushed + [ValueOf(args[a], addrs[a])];
        }
      }
    }

    /** Whether the strings fit on a script's heap. */
    predicate StringsFitIn(room: int)
      reads this
    {
      TotalCells(args) == 0 || room - TotalCells(args) >= MARGIN
    }

    /** How a script is left, and what it was called with. Its heap and stack are as high as before. A script
        without the public, or without room for the strings, is not called and its memory not touched. Otherwise it
        is called once: it sees the arguments in their declared order, as many of the last of them as could be
        pushed, each string in the cells set aside for it, above what the heap held. */
    twostate predicate Offered(amx: Script)
      reads this, amx
    {
      && amx.Valid() && amx.params == 0
      && amx.stack == old(amx.stack) && |amx.heap| == |old(amx.heap)|
      && if name in amx.publics && StringsFitIn(old(amx.Room())) then
           var p := PushesThatFit(|args|, old(amx.Room()) - TotalCells(args));
           var base := |old(amx.heap)|;
           && |amx.calls| == |old(amx.calls)| + 1 && amx.calls[..|old(amx.calls)|] == old(amx.calls)
           && var call := amx.calls[|old(amx.calls)|];
              && call.index == amx.publics[name] && |call.args| == p
              && |call.heap| == base + TotalCells(args) && call.heap[..base] == old(amx.heap)
              && SeesLast(call.args, args, base, call.heap)
         else
           amx.calls == old(amx.calls) && amx.heap == old(amx.heap)
    }

    method InvokeOn(amx: Script)
      requires amx.Valid() && amx.params == 0
      modifies amx
      ensures Offered(amx)
    {
      if name !in amx.publics {
        return;
      }
      var ok, addrs, claimed, first := AllocateStrings(amx);
      if !ok {
        return;
      }
      hide SeesLast, Seen, LastPushed, Reversed, PushesThatFit, TotalCells, AddressOf;
      PushArguments(amx, addrs);
      ghost var pushed := amx.stack[|old(amx.stack)|..];
      SeenInOrder(pushed, args, addrs, |old(amx.heap)|, amx.heap);
      assert pushed == amx.stack[|amx.stack| - amx.params..];
      amx.Exec(amx.publics[name]);
      if claimed {
        amx.Release(first);
      }
    }

    /** Every loaded script is offered the callback. */
    method Invoke(scripts: seq<Script>)
      requires forall i, j | 0 <= i < j < |scripts| :: scripts[i] != scripts[j]
      requires forall amx | amx in scripts :: amx.Valid() && amx.params == 0
      modifies scripts
      ensures forall amx | amx in scripts :: Offered(amx)
    {
      for i := 0 to |scripts|
        invariant forall k | 0 <= k < i :: Offered(scripts[k])
        invariant forall k | i <= k < |scripts| :: unchanged(scripts[k])
      {
        InvokeOn(scripts[i]);
      }
    }
  }

  /** The scripts that are loaded, each once, in the order they came. */
  class Scripts {
    var loaded: seq<Script>

    ghost predicate Valid()
      reads this
    {
      forall i, j | 0 <= i < j < |loaded| :: loaded[i] != loaded[j]
    }

    constructor ()
      ensures Valid() && loaded == []
    {
      loaded := [];
    }

    method Find(amx: Script) returns (i: nat)
      ensures i <= |loaded| && amx !in loaded[..i] && (i < |loaded| ==> loaded[i] == amx)
    {
      i := 0;
      while i < |loaded| && loaded[i] != amx
        invariant i <= |loaded| && amx !in loaded[..i]
      {
        i := i + 1;
      }
    }

    method Track(amx: Script)
      requires Valid()
      modifies this
      ensures Valid()
      ensures loaded == if amx in old(loaded) then old(loaded) else old(loaded) + [amx]
    {
      var i := Find(amx);
      if i == |loaded| {
        loaded := loaded + [amx];
      }
    }

    method Forget(amx: Script)
      requires Valid()
      modifies this
      ensures Valid() && amx !in loaded
      ensures if amx in old(loaded) then
                exists before, after :: old(loaded) == before + [amx] + after && loaded == before + after
              else loaded == old(loaded)
    {
      var i := Find(amx);
      if i < |loaded| {
        ghost var before, after := loaded[..i], loaded[i + 1..];
        assert loaded == before + [amx] + after;
        assert forall k | i < k < |loaded| :: loaded[k] != loaded[i];
        loaded := loaded[..i] + loaded[i + 1..];
      }
    }
  }

  /** All arguments get there exactly when the stack has room for them beside the strings; else the first of them
      are missing, and the public takes later ones for them. The errors of the pushes are not looked at. */
  lemma AllArgumentsArrive(n: nat, room: int)
    ensures PushesThatFit(n, room) == n <==> n == 0 || room - (n - 1) >= 16
  {
  }

  /** For one: a script whose data is all margin is called with 2 for its only argument instead of with 1 and 2. */
  method CalledShort() returns (amx: Script)
    ensures fresh(amx) && amx.calls == [Invocation(0, [2], [])]
  {
    var name: bytes := [];
    amx := new Script(map[name := 0], 16);
    var callback := new AmxCallback(name);
    callback.Int(1);
    callback.Int(2);
    assert callback.args == [Num(1), Num(2)] && callback.args[1..] == [Num(2)];
    assert TotalCells([Num(2)]) == 0 && TotalCells(callback.args) == 0;
    callback.InvokeOn(amx);
    assert |amx.calls| == 1;
    ghost var call := amx.calls[0];
    assert call.index == 0 && call.heap == [] && |call.args| == 1;
    assert Seen(call.args[0], Num(2), AddressOf(callback.args, 1, 0), call.heap);
    assert call.args == [2] && amx.calls == [call];
  }
}
