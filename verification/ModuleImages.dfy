/** The kernel image with its modules: what the packer appends to the kernel, and how the loader
    takes it apart again in memory. */
module ModuleImages {
  import opened Options

  newtype Byte = b: int | 0 <= b < 256
  const WORD: nat := 0x1_0000_0000
  const BUFFER_SIZE: nat := 128

  // ---------------------------------------------------------------- the format

  /** The lowest bytes of a number, least significant first. */
  function LowBytes(n: nat, width: nat): (s: seq<Byte>)
    ensures |s| == width
  {
    if width == 0 then [] else [(n % 256) as Byte] + LowBytes(n / 256, width - 1)
  }

  function Number(s: seq<Byte>): nat {
    if s == [] then 0 else (s[0] as int) + 256 * Number(s[1..])
  }

  function Pow256(width: nat): nat { if width == 0 then 1 else 256 * Pow256(width - 1) }

  lemma {:induction false} NumberBound(s: seq<Byte>)
    ensures Number(s) < Pow256(|s|)
  {
    if s != [] {
      NumberBound(s[1..]);
    }
  }

  lemma {:induction false} NumberOfLowBytes(n: nat, width: nat)
    requires n < Pow256(width)
    ensures Number(LowBytes(n, width)) == n
  {
    if width > 0 {
      NumberOfLowBytes(n / 256, width - 1);
      assert LowBytes(n, width)[1..] == LowBytes(n / 256, width - 1);
    }
  }

  /** An unsigned 32-bit field. */
  function Encode32(n: nat): (s: seq<Byte>)
    ensures |s| == 4
  {
    LowBytes(n, 4)
  }

  function Decode32(s: seq<Byte>): (n: nat)
    requires |s| == 4
    ensures n < WORD
  {
    NumberBound(s);
    assert Pow256(4) == WORD;
    Number(s)
  }

  lemma Width32(n: nat)
    requires n < WORD
    ensures Decode32(Encode32(n)) == n
  {
    assert Pow256(4) == WORD;
    NumberOfLowBytes(n, 4);
  }

  lemma LowBytesOf4(n: nat)
    ensures LowBytes(n, 4) ==
              [(n % 256) as Byte, (n / 256 % 256) as Byte, (n / 256 / 256 % 256) as Byte, (n / 256 / 256 / 256 % 256) as Byte]
  {
    var a, b, c := n / 256, n / 256 / 256, n / 256 / 256 / 256;
    assert LowBytes(c, 1) == [(c % 256) as Byte] + LowBytes(c / 256, 0);
    assert LowBytes(b, 2) == [(b % 256) as Byte] + LowBytes(c, 1);
    assert LowBytes(a, 3) == [(a % 256) as Byte] + LowBytes(b, 2);
  }

  lemma {:induction false} LowBytesOfNumber(s: seq<Byte>)
    ensures LowBytes(Number(s), |s|) == s
  {
    if s != [] {
      LowBytesOfNumber(s[1..]);
    }
  }

  /** Four bytes are the encoding of the number they mean. */
  lemma Bytes32(s: seq<Byte>)
    requires |s| == 4
    ensures Encode32(Decode32(s)) == s
  {
    LowBytesOfNumber(s);
  }

  /** A size field keeps the size modulo 2^32, and four bytes that mean it are that field. */
  lemma Truncated32(n: nat, s: seq<Byte>)
    requires |s| == 4 && Decode32(s) == n % WORD
    ensures s == Encode32(n)
  {
    Bytes32(s);
    LowBytesOf4(n);
    LowBytesOf4(n % WORD);
    SameDigits(n);
  }

  lemma SameDigits(n: nat)
    ensures var r := n % WORD;
            && n % 256 == r % 256 && n / 256 % 256 == r / 256 % 256
            && n / 256 / 256 % 256 == r / 256 / 256 % 256 && n / 256 / 256 / 256 % 256 == r / 256 / 256 / 256 % 256
  {
    var q, r := n / WORD, n % WORD;
    assert n == q * WORD + r;
    assert n / 256 == q * 0x100_0000 + r / 256;
    assert n / 256 / 256 == q * 0x1_0000 + r / 256 / 256;
    assert n / 256 / 256 / 256 == q * 0x100 + r / 256 / 256 / 256;
  }

  function Packed(m: seq<Byte>): seq<Byte> { Encode32(|m|) + m }

  function PackedAll(modules: seq<seq<Byte>>): seq<Byte> {
    if modules == [] then [] else Packed(modules[0]) + PackedAll(modules[1..])
  }

  /** What follows the kernel in the image. */
  function Payload(modules: seq<seq<Byte>>): seq<Byte> { Encode32(|modules|) + PackedAll(modules) }

  // ---------------------------------------------------------------- the packer

  class Packer {
    var target: seq<Byte>

    constructor ()
      ensures target == []
    {
      target := [];
    }

    /** Copy a file in chunks. The end of the file is noticed only by a read that comes back
        short, so a file of whole chunks takes one more, empty, read. */
    method WriteFile(source: seq<Byte>)
      modifies this
      ensures target == old(target) + source
    {
      var position := 0;
      var endOfFile := false;
      while !endOfFile
        invariant position <= |source| && target == old(target) + source[..position]
        invariant endOfFile ==> position == |source|
        decreases |source| - position, if endOfFile then 0 else 1
      {
        var read := if |source| - position < BUFFER_SIZE then |source| - position else BUFFER_SIZE;
        endOfFile := read < BUFFER_SIZE;
        assert source[..position + read] == source[..position] + source[position..position + read];
        target := target + source[position..position + read];
        position := position + read;
      }
    }

    /** Four bytes are appended, and what they mean is the size modulo 2^32. */
    method WriteSize(source: seq<Byte>)
      modifies this
      ensures |target| == |old(target)| + 4 && target[..|old(target)|] == old(target)
      ensures Decode32(target[|old(target)|..]) == |source| % WORD
    {
      var size := |source| % WORD;
      var field := [(size % 256) as Byte, (size / 256 % 256) as Byte, (size / 256 / 256 % 256) as Byte, (size / 256 / 256 / 256 % 256) as Byte];
      LowBytesOf4(size);
      Width32(size);
      target := target + field;
      assert target[|old(target)|..] == field;
    }

    method WriteModule(source: seq<Byte>)
      modifies this
      ensures target == old(target) + Packed(source)
    {
      WriteSize(source);
      Truncated32(|source|, target[|old(target)|..]);
      assert target == old(target) + Encode32(|source|);
      WriteFile(source);
      Associate(old(target), Encode32(|source|), source);
    }

    /** The kernel, the number of modules, and each module behind its size. */
    method BuildImage(files: seq<seq<Byte>>)
      requires files != [] && target == []
      modifies this
      ensures target == files[0] + Payload(files[1..])
    {
      WriteFile(files[0]);
      var extraBinaries := |files| - 1;
      target := target + Encode32(extraBinaries);
      ghost var head := target;
      for i := 1 to |files|
        invariant target + PackedAll(files[i..]) == head + PackedAll(files[1..])
      {
        ghost var before, rest := target, PackedAll(files[i + 1..]);
        assert files[i..][1..] == files[i + 1..];
        WriteModule(files[i]);
        Associate(before, Packed(files[i]), rest);
      }
      assert files[|files|..] == [] && target + [] == target;
      Associate(files[0], Encode32(|files| - 1), PackedAll(files[1..]));
    }
  }

  lemma Associate(a: seq<Byte>, b: seq<Byte>, c: seq<Byte>)
    ensures (a + b) + c == a + (b + c)
  {
  }

  // ---------------------------------------------------------------- the loader on bytes

  /** s starts with a size field and as many bytes as it says. */
  predicate Complete(s: seq<Byte>) { |s| >= 4 && |s| >= 4 + Decode32(s[..4]) }

  function Front(s: seq<Byte>): seq<Byte>
    requires Complete(s)
  {
    s[4..4 + Decode32(s[..4])]
  }

  function Behind(s: seq<Byte>): (r: seq<Byte>)
    requires Complete(s)
    ensures |s| == 4 + |Front(s)| + |r|
  {
    s[4 + Decode32(s[..4])..]
  }

  /** What the loader makes of some bytes: the modules and how many bytes they take, or a read
      past the end. */
  datatype Contents = PastEnd | Modules(list: seq<seq<Byte>>, used: nat)

  /** c with one more module in front. */
  function Before(m: seq<Byte>, c: Contents): Contents {
    if c.PastEnd? then c else Modules([m] + c.list, 4 + |m| + c.used)
  }

  /** n modules read off the front of s. */
  function Unpack(s: seq<Byte>, n: nat): Contents
    decreases n
  {
    if n == 0 then Modules([], 0)
    else if !Complete(s) then PastEnd
    else Before(Front(s), Unpack(Behind(s), n - 1))
  }

  function Load(s: seq<Byte>): Contents {
    if |s| < 4 then PastEnd
    else
      var c := Unpack(s[4..], Decode32(s[..4]));
      if c.PastEnd? then c else c.(used := 4 + c.used)
  }

  /** A module can be told apart only if its size fits the 32-bit field. */
  ghost predicate Sizes32(modules: seq<seq<Byte>>) { forall i :: 0 <= i < |modules| ==> |modules[i]| < WORD }

  /** One module, behind a size field e that tells its size. */
  lemma FrontOf(e: seq<Byte>, m: seq<Byte>, t: seq<Byte>)
    requires |e| == 4 && Decode32(e) == |m|
    ensures Complete(e + m + t) && Front(e + m + t) == m && Behind(e + m + t) == t
  {
    assert (e + m + t)[..4] == e;
  }

  lemma UnpackStep(s: seq<Byte>, e: seq<Byte>, m: seq<Byte>, t: seq<Byte>, list: seq<seq<Byte>>, used: nat)
    requires s == e + m + t && |e| == 4 && Decode32(e) == |m| && Unpack(t, |list|) == Modules(list, used)
    ensures Unpack(s, |list| + 1) == Modules([m] + list, 4 + |m| + used)
  {
    FrontOf(e, m, t);
    var n := |list| + 1;
    assert Unpack(s, n) == Before(m, Unpack(t, n - 1));
  }

  lemma PackedSplit(modules: seq<seq<Byte>>, rest: seq<Byte>) returns (e: seq<Byte>)
    requires modules != [] && |modules[0]| < WORD
    ensures |e| == 4 && Decode32(e) == |modules[0]|
    ensures PackedAll(modules) + rest == e + modules[0] + (PackedAll(modules[1..]) + rest)
    ensures |PackedAll(modules)| == 4 + |modules[0]| + |PackedAll(modules[1..])|
  {
    e := Encode32(|modules[0]|);
    Width32(|modules[0]|);
  }

  lemma {:induction false} UnpackPacked(modules: seq<seq<Byte>>, rest: seq<Byte>)
    requires Sizes32(modules)
    ensures Unpack(PackedAll(modules) + rest, |modules|) == Modules(modules, |PackedAll(modules)|)
    decreases |modules|
  {
    if modules != [] {
      UnpackPacked(modules[1..], rest);
      UnpackNext(modules, rest);
    }
  }

  lemma UnpackNext(modules: seq<seq<Byte>>, rest: seq<Byte>)
    requires modules != [] && |modules[0]| < WORD
    requires var tail := modules[1..]; Unpack(PackedAll(tail) + rest, |tail|) == Modules(tail, |PackedAll(tail)|)
    ensures Unpack(PackedAll(modules) + rest, |modules|) == Modules(modules, |PackedAll(modules)|)
  {
    var m, tail, all := modules[0], modules[1..], PackedAll(modules);
    var t, used := PackedAll(tail) + rest, |PackedAll(tail)|;
    var e := PackedSplit(modules, rest);
    UnpackStep(all + rest, e, m, t, tail, used);
    assert modules == [m] + tail;
  }

  lemma {:induction false} UnpackedSizes(s: seq<Byte>, n: nat)
    ensures Unpack(s, n).Modules? ==> |Unpack(s, n).list| == n && Sizes32(Unpack(s, n).list)
    decreases n
  {
    if n > 0 && Complete(s) {
      UnpackedSizes(Behind(s), n - 1);
    }
  }

  /** Loading what was packed gives every module back, byte for byte, and ends exactly at the end
      of the payload, if and only if each module's size, and their number, fit in 32 bits. */
  lemma RoundTripExactly(modules: seq<seq<Byte>>, rest: seq<Byte>)
    ensures Load(Payload(modules) + rest) == Modules(modules, |Payload(modules)|) <==>
            Sizes32(modules) && |modules| < WORD
  {
    if Sizes32(modules) && |modules| < WORD {
      RoundTrip(modules, rest);
    } else {
      LoadedSizes(Payload(modules) + rest);
    }
  }

  lemma LoadedSizes(s: seq<Byte>)
    ensures Load(s).Modules? ==> Sizes32(Load(s).list) && |Load(s).list| < WORD
  {
    if |s| >= 4 {
      UnpackedSizes(s[4..], Decode32(s[..4]));
    }
  }

  lemma RoundTrip(modules: seq<seq<Byte>>, rest: seq<Byte>)
    requires Sizes32(modules) && |modules| < WORD
    ensures Load(Payload(modules) + rest) == Modules(modules, |Payload(modules)|)
  {
    var e, t := Encode32(|modules|), PackedAll(modules) + rest;
    Width32(|modules|);
    UnpackPacked(modules, rest);
    assert Payload(modules) + rest == e + t;
    assert (e + t)[..4] == e && (e + t)[4..] == t;
  }

  // ---------------------------------------------------------------- the loader in memory

  ghost predicate Region(memory: seq<Byte>, at: nat, s: seq<Byte>) {
    at + |s| <= |memory| && forall j :: 0 <= j < |s| ==> memory[at + j] == s[j]
  }

  ghost predicate Disjoint(a: nat, n: nat, b: nat, m: nat) { a + n <= b || b + m <= a }

  /** The kernel's copy: by words when both ends and the length allow, else by bytes. */
  method Memcpy(memory: array<Byte>, destination: nat, source: nat, length: nat)
    requires destination + length <= memory.Length && source + length <= memory.Length
    requires Disjoint(destination, length, source, length)
    modifies memory
    ensures forall a :: 0 <= a < memory.Length ==>
              memory[a] == if destination <= a < destination + length then old(memory[source + (a - destination)]) else old(memory[a])
  {
    if destination % 4 == 0 && source % 4 == 0 && length % 4 == 0 {
      for i := 0 to length / 4
        invariant forall a :: 0 <= a < memory.Length ==>
                    memory[a] == if destination <= a < destination + 4 * i then old(memory[source + (a - destination)]) else old(memory[a])
      {
        memory[destination + 4 * i], memory[destination + 4 * i + 1], memory[destination + 4 * i + 2], memory[destination + 4 * i + 3] :=
          memory[source + 4 * i], memory[source + 4 * i + 1], memory[source + 4 * i + 2], memory[source + 4 * i + 3];
      }
    } else {
      for i := 0 to length
        invariant forall a :: 0 <= a < memory.Length ==>
                    memory[a] == if destination <= a < destination + i then old(memory[source + (a - destination)]) else old(memory[a])
      {
        memory[destination + i] := memory[source + i];
      }
    }
  }

  method ReadUint32(memory: array<Byte>, address: nat) returns (result: nat, next: nat)
    requires address + 4 <= memory.Length
    ensures result < WORD && Encode32(result) == memory[address..address + 4]
    ensures next == address + 4
  {
    result := memory[address] as int + 0x100 * (memory[address + 1] as int) + 0x1_0000 * (memory[address + 2] as int)
              + 0x100_0000 * (memory[address + 3] as int);
    next := address + 4;
    NumberOf4(memory[address..next]);
    LowBytesOfNumber(memory[address..next]);
  }

  lemma NumberOf4(s: seq<Byte>)
    requires |s| == 4
    ensures Number(s) == s[0] as int + 0x100 * (s[1] as int) + 0x1_0000 * (s[2] as int) + 0x100_0000 * (s[3] as int) < WORD
  {
    assert s[3..][1..] == [] && s[2..][1..] == s[3..] && s[1..][1..] == s[2..];
    assert Number(s[3..]) == s[3] as int;
    assert Number(s[2..]) == s[2] as int + 256 * Number(s[3..]);
    assert Number(s[1..]) == s[1] as int + 256 * Number(s[2..]);
  }

  /** A region of two parts is two regions. */
  lemma RegionSplit(memory: seq<Byte>, at: nat, s: seq<Byte>, t: seq<Byte>)
    requires Region(memory, at, s + t)
    ensures Region(memory, at, s) && Region(memory, at + |s|, t)
  {
    forall j | 0 <= j < |s| ensures memory[at + j] == s[j] {
      assert (s + t)[j] == s[j];
    }
    forall j | 0 <= j < |t| ensures memory[at + |s| + j] == t[j] {
      assert (s + t)[|s| + j] == t[j];
    }
  }

  /** The number stored at an address is the one that was encoded there. */
  method ReadEncoded(memory: array<Byte>, address: nat, ghost n: nat) returns (result: nat, next: nat)
    requires n < WORD && Region(memory[..], address, Encode32(n))
    ensures result == n && next == address + 4
  {
    result, next := ReadUint32(memory, address);
    ghost var e := Encode32(n);
    forall j | 0 <= j < 4 ensures memory[address..next][j] == e[j] {
      assert memory[..][address + j] == e[j];
    }
    assert memory[address..next] == e;
    Width32(n);
    Width32(result);
  }

  /** Read a size and copy so many bytes to the target. */
  method LoadModule(memory: array<Byte>, address: nat, target: nat, ghost m: seq<Byte>) returns (next: nat)
    requires |m| < WORD && Region(memory[..], address, Encode32(|m|)) && Region(memory[..], address + 4, m)
    requires target + |m| <= memory.Length && Disjoint(target, |m|, address + 4, |m|)
    modifies memory
    ensures next == address + 4 + |m| && Region(memory[..], target, m)
    ensures forall a :: 0 <= a < memory.Length && !(target <= a < target + |m|) ==> memory[a] == old(memory[a])
  {
    var moduleSize, start := ReadEncoded(memory, address, |m|);
    ghost var before := memory[..];
    Memcpy(memory, target, start, moduleSize);
    forall j | 0 <= j < |m| ensures memory[target + j] == m[j] {
      assert before[start + j] == m[j];
    }
    next := start + moduleSize;
  }

  /** Targets that lie in memory, away from the payload and from each other. */
  ghost predicate TargetsOk(length: nat, payloadStart: nat, modules: seq<seq<Byte>>, targets: seq<nat>) {
    && |targets| >= |modules|
    && (forall i {:trigger targets[i]} :: 0 <= i < |modules| ==>
          targets[i] + |modules[i]| <= length && Disjoint(targets[i], |modules[i]|, payloadStart, |Payload(modules)|))
    && (forall i, j {:trigger targets[i], targets[j]} :: 0 <= i < j < |modules| ==>
          Disjoint(targets[i], |modules[i]|, targets[j], |modules[j]|))
  }

  lemma NextModule(memory: seq<Byte>, at: nat, m: seq<Byte>, t: seq<Byte>)
    requires Region(memory, at, Packed(m) + t)
    ensures Region(memory, at, Encode32(|m|)) && Region(memory, at + 4, m) && Region(memory, at + 4 + |m|, t)
  {
    RegionSplit(memory, at, Packed(m), t);
    RegionSplit(memory, at, Encode32(|m|), m);
  }

  lemma RegionKept(before: seq<Byte>, after: seq<Byte>, at: nat, s: seq<Byte>, target: nat, n: nat)
    requires Region(before, at, s) && |after| == |before| && Disjoint(target, n, at, |s|)
    requires forall a :: 0 <= a < |before| && !(target <= a < target + n) ==> after[a] == before[a]
    ensures Region(after, at, s)
  {
    forall j | 0 <= j < |s| ensures after[at + j] == s[j] {
      assert before[at + j] == s[j];
    }
  }

  predicate InTarget(a: int, target: nat, m: seq<Byte>) { target <= a < target + |m| }

  /** Load every module of the payload to its target; the cursor ends at the payload's end and no
      other memory changes. */
  method LoadModules(memory: array<Byte>, payloadStart: nat, targets: seq<nat>, ghost modules: seq<seq<Byte>>)
    returns (currentModule: nat)
    requires Sizes32(modules) && |modules| < WORD && Region(memory[..], payloadStart, Payload(modules))
    requires TargetsOk(memory.Length, payloadStart, modules, targets)
    modifies memory
    ensures currentModule == payloadStart + |Payload(modules)|
    ensures forall i :: 0 <= i < |modules| ==> Region(memory[..], targets[i], modules[i])
    ensures forall a :: 0 <= a < memory.Length && (forall i :: 0 <= i < |modules| ==> !InTarget(a, targets[i], modules[i])) ==>
              memory[a] == old(memory[a])
  {
    RegionSplit(memory[..], payloadStart, Encode32(|modules|), PackedAll(modules));
    var moduleCount;
    moduleCount, currentModule := ReadEncoded(memory, payloadStart, |modules|);
    ghost var end := payloadStart + |Payload(modules)|;
    for i := 0 to moduleCount
      invariant currentModule + |PackedAll(modules[i..])| == end && payloadStart <= currentModule
      invariant Region(memory[..], currentModule, PackedAll(modules[i..]))
      invariant forall j :: 0 <= j < i ==> Region(memory[..], targets[j], modules[j])
      invariant forall a :: 0 <= a < memory.Length && (forall j :: 0 <= j < |modules| ==> !InTarget(a, targets[j], modules[j])) ==>
                  memory[a] == old(memory[a])
    {
      ghost var m, t := modules[i], PackedAll(modules[i + 1..]);
      assert modules[i..][1..] == modules[i + 1..];
      NextModule(memory[..], currentModule, m, t);
      ghost var before := memory[..];
      currentModule := LoadModule(memory, currentModule, targets[i], m);
      RegionKept(before, memory[..], currentModule, t, targets[i], |m|);
      forall j | 0 <= j < i ensures Region(memory[..], targets[j], modules[j]) {
        RegionKept(before, memory[..], targets[j], modules[j], targets[i], |m|);
      }
      assert forall a :: InTarget(a, targets[i], m) <==> targets[i] <= a < targets[i] + |m|;
    }
  }
}
