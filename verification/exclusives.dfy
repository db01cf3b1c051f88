// Load-exclusive and store-exclusive, emulated by remembering the address and the value that
// were loaded and comparing both when the store is made.
module ByteMemory {
  import opened Arithmetic

  type Byte = b: nat | b < 256

  // The n low bytes of a number, and the number of a row of bytes, least significant first.

  function Bytes(v: nat, n: nat): (s: seq<Byte>)
    ensures |s| == n
    decreases n
  {
    if n == 0 then [] else [v % 256] + Bytes(v / 256, n - 1)
  }

  function Number(s: seq<Byte>): nat
  {
    if s == [] then 0 else s[0] + 256 * Number(s[1..])
  }

  // How many values n bytes can hold.
  function Modulus(n: nat): (m: nat)
    ensures m >= 1
  {
    Pow2(8 * n)
  }

  lemma OneMoreByte(n: nat)
    ensures Modulus(0) == 1 && Modulus(n + 1) == 256 * Modulus(n)
  {
    Pow2Add(8, 8 * n);
    assert Pow2(4) == 16 && Pow2(8) == 256;
  }

  lemma {:induction false} NumberBound(s: seq<Byte>)
    ensures Number(s) < Modulus(|s|)
  {
    hide Modulus;
    OneMoreByte(if s == [] then 0 else |s| - 1);
    if s != [] {
      NumberBound(s[1..]);
    }
  }

  lemma {:induction false} NumberOfBytes(v: nat, n: nat)
    ensures Number(Bytes(v, n)) == v % Modulus(n)
    decreases n
  {
    hide Modulus;
    OneMoreByte(if n == 0 then 0 else n - 1);
    if n > 0 {
      NumberOfBytes(v / 256, n - 1);
      assert Bytes(v, n)[1..] == Bytes(v / 256, n - 1);
      LowByte(v, Modulus(n - 1));
    }
  }

  lemma LowByte(v: nat, m: nat)
    requires m >= 1
    ensures v % (256 * m) == v % 256 + 256 * (v / 256 % m)
  {
    var q, r := v / 256 / m, v / 256 % m;
    DivMod(v / 256, m);
    LowByteParts(v, m, q, r);
  }

  lemma LowByteParts(v: nat, m: nat, q: nat, r: nat)
    requires r < m && v / 256 == m * q + r
    ensures v % (256 * m) == v % 256 + 256 * r
  {
    assert 256 * (m * q) == (256 * m) * q;
    DivUnique(v, 256 * m, q, v % 256 + 256 * r);
  }

  function Reversed(s: seq<Byte>): (r: seq<Byte>)
    ensures |r| == |s|
  {
    if s == [] then [] else Reversed(s[1..]) + [s[0]]
  }

  lemma {:induction false} ReversedAt(s: seq<Byte>, k: nat)
    requires k < |s|
    ensures Reversed(s)[k] == s[|s| - 1 - k]
  {
    if k < |s| - 1 {
      ReversedAt(s[1..], k);
    }
  }

  lemma ReversedTwice(s: seq<Byte>)
    ensures Reversed(Reversed(s)) == s
  {
    forall k: nat | k < |s| ensures Reversed(Reversed(s))[k] == s[k] {
      ReversedAt(Reversed(s), k);
      ReversedAt(s, |s| - 1 - k);
    }
  }

  function Ordered(be: bool, s: seq<Byte>): (r: seq<Byte>)
    ensures |r| == |s|
  {
    if be then Reversed(s) else s
  }

  // An access of n bytes at addr, in either byte order.

  predicate Accessible(memory: seq<Byte>, addr: nat, n: nat)
    requires n > 0
  {
    addr % n == 0 && addr + n <= |memory|
  }

  function Load(be: bool, memory: seq<Byte>, addr: nat, n: nat): (v: nat)
    requires addr + n <= |memory|
  {
    Number(Ordered(be, memory[addr..addr + n]))
  }

  function Poke(be: bool, memory: seq<Byte>, addr: nat, n: nat, v: nat): (r: seq<Byte>)
    requires addr + n <= |memory|
    ensures |r| == |memory|
  {
    memory[..addr] + Ordered(be, Bytes(v, n)) + memory[addr + n..]
  }

  // The least significant byte comes first, or last.
  lemma LoadBytewise(be: bool, memory: seq<Byte>, addr: nat, n: nat)
    requires n > 0 && addr + n <= |memory|
    ensures Load(be, memory, addr, n) ==
            if be then memory[addr + n - 1] + 256 * Load(be, memory, addr, n - 1)
            else memory[addr] + 256 * Load(be, memory, addr + 1, n - 1)
  {
    var s := memory[addr..addr + n];
    if be {
      ReversedAt(s, 0);
      forall k | 0 <= k < n - 1 ensures Reversed(s)[1..][k] == Reversed(s[..n - 1])[k] {
        ReversedAt(s, k + 1);
        ReversedAt(s[..n - 1], k);
      }
      assert Reversed(s)[1..] == Reversed(s[..n - 1]) && s[..n - 1] == memory[addr..addr + n - 1];
    } else {
      assert s[1..] == memory[addr + 1..addr + 1 + (n - 1)];
    }
  }

  lemma LoadFits(be: bool, memory: seq<Byte>, addr: nat, n: nat)
    requires addr + n <= |memory|
    ensures Load(be, memory, addr, n) < Modulus(n)
  {
    NumberBound(Ordered(be, memory[addr..addr + n]));
  }

  // What is stored is loaded again, as far as it fits.
  lemma LoadOfPoke(be: bool, memory: seq<Byte>, addr: nat, n: nat, v: nat)
    requires addr + n <= |memory|
    ensures Load(be, Poke(be, memory, addr, n, v), addr, n) == v % Modulus(n)
  {
    assert Poke(be, memory, addr, n, v)[addr..addr + n] == Ordered(be, Bytes(v, n));
    ReversedTwice(Bytes(v, n));
    NumberOfBytes(v, n);
  }

  // A store elsewhere does not show.
  lemma LoadBesidePoke(be: bool, memory: seq<Byte>, addr: nat, n: nat, there: nat, m: nat, v: nat)
    requires addr + n <= |memory| && there + m <= |memory|
    requires addr + n <= there || there + m <= addr
    ensures Load(be, Poke(be, memory, there, m, v), addr, n) == Load(be, memory, addr, n)
  {
    var p := Poke(be, memory, there, m, v);
    forall k | addr <= k < addr + n ensures p[k] == memory[k] {
      if k >= there + m {
        assert p[k] == memory[there + m..][k - there - m];
      }
    }
    assert p[addr..addr + n] == memory[addr..addr + n];
  }
}

module ExclusiveModel {
  import opened Arithmetic
  import opened ByteMemory
  import opened Wrappers

  // The monitor of one CPU.  It is cleared by setting the address to -1, that is, to the last
  // address of the memory.
  datatype Monitor = Monitor(addr: nat, val: nat)

  datatype State = State(memory: seq<Byte>, cpus: seq<Monitor>)

  datatype Outcome = Loaded(value: nat) | Status(rd: nat) | Done | Fault

  // An access of size s covers Pow2(s) bytes.
  datatype Action =
    | LoadExclusive(cpu: nat, addr: nat, size: nat)
    | StoreExclusive(cpu: nat, addr: nat, size: nat, value: nat)
    | Clrex(cpu: nat)
    | Store(addr: nat, size: nat, value: nat)

  function Cleared(memory: seq<Byte>): nat
    requires memory != []
  {
    |memory| - 1
  }

  function LoadBy(be: bool, c: Monitor, memory: seq<Byte>, addr: nat, size: nat): (Monitor, Outcome)
  {
    var n := Pow2(size);
    if !Accessible(memory, addr, n) then (c, Fault)
    else var v := Load(be, memory, addr, n); (Monitor(addr, v), Loaded(v))
  }

  // What the compare-and-exchange at the access size leaves in memory.
  function Exchanged(be: bool, memory: seq<Byte>, addr: nat, n: nat, expected: nat, value: nat): seq<Byte>
    requires addr + n <= |memory|
  {
    if Load(be, memory, addr, n) == expected % Modulus(n) then Poke(be, memory, addr, n, value) else memory
  }

  function StoreBy(be: bool, c: Monitor, memory: seq<Byte>, addr: nat, size: nat, value: nat)
    : (r: (Monitor, seq<Byte>, Outcome))
    requires memory != []
    ensures |r.1| == |memory|
  {
    var n := Pow2(size);
    if addr != c.addr then (c.(addr := Cleared(memory)), memory, Status(1))
    else if !Accessible(memory, addr, n) then (c, memory, Fault)
    else
      (c.(addr := Cleared(memory)), Exchanged(be, memory, addr, n, c.val, value),
       Status(if Load(be, memory, addr, n) == c.val then 0 else 1))
  }

  predicate Enabled(s: State, a: Action)
  {
    && s.memory != []
    && (a.LoadExclusive? || a.StoreExclusive? || a.Clrex? ==> a.cpu < |s.cpus|)
  }

  function Step(be: bool, s: State, a: Action): (r: (State, Outcome))
    requires Enabled(s, a)
    ensures |r.0.memory| == |s.memory| && |r.0.cpus| == |s.cpus|
  {
    match a
    case LoadExclusive(cpu, addr, size) =>
      var (c, outcome) := LoadBy(be, s.cpus[cpu], s.memory, addr, size);
      (s.(cpus := s.cpus[cpu := c]), outcome)
    case StoreExclusive(cpu, addr, size, value) =>
      var (c, memory, outcome) := StoreBy(be, s.cpus[cpu], s.memory, addr, size, value);
      (State(memory, s.cpus[cpu := c]), outcome)
    case Clrex(cpu) =>
      (s.(cpus := s.cpus[cpu := s.cpus[cpu].(addr := Cleared(s.memory))]), Done)
    case Store(addr, size, value) =>
      if Accessible(s.memory, addr, Pow2(size))
      then (s.(memory := Poke(be, s.memory, addr, Pow2(size), value)), Done)
      else (s, Fault)
  }

  // An access that is not aligned to its size or not all in memory is a fault and changes nothing; a
  // store-exclusive to another address than the monitored one is not an access.
  lemma FaultIff(be: bool, s: State, a: Action)
    requires Enabled(s, a)
    ensures Step(be, s, a).1 == Fault <==>
      && !a.Clrex? && (a.StoreExclusive? ==> s.cpus[a.cpu].addr == a.addr)
      && (a.addr % Pow2(a.size) != 0 || a.addr + Pow2(a.size) > |s.memory|)
    ensures Step(be, s, a).1 == Fault ==> Step(be, s, a).0 == s
  {}

  // A run of any number of CPUs: their actions in the order in which they take effect.
  predicate Runs(be: bool, s: State, run: seq<Action>)
    decreases run
  {
    run == [] || (Enabled(s, run[0]) && Runs(be, Step(be, s, run[0]).0, run[1..]))
  }

  function After(be: bool, s: State, run: seq<Action>): (t: State)
    requires Runs(be, s, run)
    ensures |t.memory| == |s.memory| && |t.cpus| == |s.cpus|
    decreases run
  {
    if run == [] then s else After(be, Step(be, s, run[0]).0, run[1..])
  }

  // The reservation each CPU holds, remembered from its loads alone: the address and the value
  // of its last successful load-exclusive, until it stores exclusively or clears the monitor.
  datatype Reservation = Reservation(addr: nat, value: nat)

  function Reserved(be: bool, s: State, a: Action, held: seq<Option<Reservation>>): (r: seq<Option<Reservation>>)
    requires Enabled(s, a) && |held| == |s.cpus|
    ensures |r| == |held|
  {
    match a
    case LoadExclusive(cpu, addr, _) =>
      if Step(be, s, a).1.Loaded? then held[cpu := Some(Reservation(addr, Step(be, s, a).1.value))] else held
    case StoreExclusive(cpu, _, _, _) =>
      if Step(be, s, a).1.Status? then held[cpu := None] else held
    case Clrex(cpu) => held[cpu := None]
    case Store(_, _, _) => held
  }

  function Reservations(be: bool, s: State, run: seq<Action>, held: seq<Option<Reservation>>)
    : (r: seq<Option<Reservation>>)
    requires Runs(be, s, run) && |held| == |s.cpus|
    ensures |r| == |held|
    decreases run
  {
    if run == [] then held
    else Reservations(be, Step(be, s, run[0]).0, run[1..], Reserved(be, s, run[0], held))
  }

  // A monitor shows its reservation, or is clear.
  predicate Shows(memory: seq<Byte>, c: Monitor, held: Option<Reservation>)
    requires memory != []
  {
    match held
    case None => c.addr == Cleared(memory)
    case Some(r) => c == Monitor(r.addr, r.value)
  }

  predicate Agrees(s: State, held: seq<Option<Reservation>>)
  {
    && s.memory != []
    && |held| == |s.cpus|
    && forall i :: 0 <= i < |held| ==> Shows(s.memory, s.cpus[i], held[i])
  }

  lemma StepKeepsAgreement(be: bool, s: State, a: Action, held: seq<Option<Reservation>>)
    requires Enabled(s, a) && Agrees(s, held)
    ensures Agrees(Step(be, s, a).0, Reserved(be, s, a, held))
  {
    var t, later := Step(be, s, a).0, Reserved(be, s, a, held);
    forall i | 0 <= i < |later| ensures Shows(t.memory, t.cpus[i], later[i]) {
      assert Shows(s.memory, s.cpus[i], held[i]);
    }
  }

  lemma {:induction false} RunKeepsAgreement(be: bool, s: State, run: seq<Action>, held: seq<Option<Reservation>>)
    requires Runs(be, s, run) && Agrees(s, held)
    ensures Agrees(After(be, s, run), Reservations(be, s, run, held))
    decreases run
  {
    if run != [] {
      StepKeepsAgreement(be, s, run[0], held);
      RunKeepsAgreement(be, Step(be, s, run[0]).0, run[1..], Reserved(be, s, run[0], held));
    }
  }

  // All monitors clear, as at reset.
  predicate AllClear(s: State)
  {
    s.memory != [] && forall i :: 0 <= i < |s.cpus| ==> s.cpus[i].addr == Cleared(s.memory)
  }

  function NoReservations(n: nat): (r: seq<Option<Reservation>>)
    ensures |r| == n && forall i :: 0 <= i < n ==> r[i] == None
  {
    seq(n, i => None)
  }

  // After any run, a store-exclusive to an address other than -1 reports success exactly if the
  // CPU still holds a reservation for that address and memory still holds the reserved value.
  // Then the new value is in memory.
  lemma SuccessMeansUnchanged(be: bool, s: State, run: seq<Action>, cpu: nat, addr: nat, size: nat, value: nat)
    requires AllClear(s) && Runs(be, s, run) && cpu < |s.cpus|
    requires addr != Cleared(s.memory)
    ensures var t := After(be, s, run);
      var n := Pow2(size);
      var a := StoreExclusive(cpu, addr, size, value);
      && Enabled(t, a)
      && var (u, outcome) := Step(be, t, a);
      && var held := Reservations(be, s, run, NoReservations(|s.cpus|))[cpu];
      && (outcome == Status(0) <==>
          && held.Some? && held.value.addr == addr && Accessible(t.memory, addr, n)
          && Load(be, t.memory, addr, n) == held.value.value)
      && (outcome == Status(0) ==>
          && u.memory == Poke(be, t.memory, addr, n, value)
          && Load(be, u.memory, addr, n) == value % Modulus(n))
      && (outcome.Status? ==> u.cpus[cpu].addr == Cleared(s.memory))
      && (outcome.Fault? ==> u == t)
  {
    var t := After(be, s, run);
    var n := Pow2(size);
    RunKeepsAgreement(be, s, run, NoReservations(|s.cpus|));
    var held := Reservations(be, s, run, NoReservations(|s.cpus|))[cpu];
    assert Shows(t.memory, t.cpus[cpu], held);
    if Accessible(t.memory, addr, n) {
      LoadFits(be, t.memory, addr, n);
      LoadOfPoke(be, t.memory, addr, n, value);
      SmallRemainder(Load(be, t.memory, addr, n), Modulus(n));
    }
  }

  lemma SmallRemainder(x: nat, m: nat)
    requires x < m
    ensures x % m == x
  {}

  // Address -1 is what a clear monitor shows: there a store-exclusive without a reservation
  // succeeds as soon as the byte equals the value left in the monitor.
  lemma ClearedMonitorMatchesLastAddress(be: bool, s: State, cpu: nat, addr: nat, size: nat, value: nat)
    requires AllClear(s) && cpu < |s.cpus|
    ensures Step(be, s, StoreExclusive(cpu, addr, size, value)).1 == Status(0) <==>
            addr == Cleared(s.memory) && Accessible(s.memory, addr, Pow2(size)) &&
            Load(be, s.memory, addr, Pow2(size)) == s.cpus[cpu].val
  {}

  lemma OneByte(be: bool, b: Byte)
    ensures Ordered(be, [b]) == [b] && Number([b]) == b
  {
    assert [b][1..] == [];
    assert Reversed([b]) == [b];
  }

  lemma LastByteWithoutReservation(be: bool, s: State, cpu: nat, value: nat)
    requires AllClear(s) && cpu < |s.cpus|
    requires s.memory[|s.memory| - 1] == s.cpus[cpu].val
    ensures Step(be, s, StoreExclusive(cpu, Cleared(s.memory), 0, value)).1 == Status(0)
  {
    var addr := Cleared(s.memory);
    assert Pow2(0) == 1;
    assert s.memory[addr..addr + 1] == [s.memory[addr]];
    OneByte(be, s.memory[addr]);
    ClearedMonitorMatchesLastAddress(be, s, cpu, addr, 0, value);
  }

  // Memory is written exactly if the values agree at the size of the store.  When the load was
  // wider, the store may be made and failure reported.
  lemma WrittenIff(be: bool, c: Monitor, memory: seq<Byte>, addr: nat, size: nat, value: nat)
    requires memory != [] && addr == c.addr && Accessible(memory, addr, Pow2(size))
    ensures var n := Pow2(size);
      var (c', memory', outcome) := StoreBy(be, c, memory, addr, size, value);
      && (memory' == Poke(be, memory, addr, n, value) <==>
          Load(be, memory, addr, n) == c.val % Modulus(n) || Load(be, memory, addr, n) == value % Modulus(n))
      && (outcome == Status(0) <==> Load(be, memory, addr, n) == c.val % Modulus(n) && c.val < Modulus(n))
  {
    var n := Pow2(size);
    LoadFits(be, memory, addr, n);
    LoadOfPoke(be, memory, addr, n, value);
    DivMod(c.val, Modulus(n));
    if c.val < Modulus(n) {
      SmallRemainder(c.val, Modulus(n));
    }
    if Load(be, memory, addr, n) == value % Modulus(n) {
      PokeSame(be, memory, addr, n, value);
    }
  }

  // Failure is reported and memory changed all the same in exactly this case: the monitor's value
  // does not fit the store, its low part is in memory, and something else is stored.
  lemma FailedButWrittenIff(be: bool, c: Monitor, memory: seq<Byte>, addr: nat, size: nat, value: nat)
    requires memory != []
    ensures var (c', memory', outcome) := StoreBy(be, c, memory, addr, size, value);
      (outcome == Status(1) && memory' != memory) <==>
        (&& addr == c.addr && Accessible(memory, addr, Pow2(size)) && c.val >= Modulus(Pow2(size))
         && Load(be, memory, addr, Pow2(size)) == c.val % Modulus(Pow2(size))
         && Load(be, memory, addr, Pow2(size)) != value % Modulus(Pow2(size)))
  {
    hide Load, Poke, Modulus;
    if addr == c.addr && Accessible(memory, addr, Pow2(size)) {
      LoadFits(be, memory, addr, Pow2(size));
      WrittenIff(be, c, memory, addr, size, value);
      PokeSameIff(be, memory, addr, Pow2(size), value);
      if c.val < Modulus(Pow2(size)) {
        SmallRemainder(c.val, Modulus(Pow2(size)));
      }
    }
  }

  lemma PokeSameIff(be: bool, memory: seq<Byte>, addr: nat, n: nat, v: nat)
    requires addr + n <= |memory|
    ensures Poke(be, memory, addr, n, v) == memory <==> Load(be, memory, addr, n) == v % Modulus(n)
  {
    LoadOfPoke(be, memory, addr, n, v);
    if Load(be, memory, addr, n) == v % Modulus(n) {
      PokeSame(be, memory, addr, n, v);
    }
  }

  // Such a run: a half-word is loaded exclusively and a byte stored.
  lemma FailedButWrittenReached()
    ensures var s := State([7, 1, 0], [Monitor(2, 0)]);
      var load := LoadExclusive(0, 0, 1);
      && AllClear(s) && Runs(false, s, [load]) && Step(false, s, load).1 == Loaded(263)
      && Step(false, After(false, s, [load]), StoreExclusive(0, 0, 0, 9)) == (State([9, 1, 0], [Monitor(2, 263)]), Status(1))
  {
    hide Load, Poke, Modulus, Pow2;
    var memory: seq<Byte> := [7, 1, 0];
    var s := State(memory, [Monitor(2, 0)]);
    var load := LoadExclusive(0, 0, 1);
    SevenOneZero();
    var t := Step(false, s, load).0;
    assert t == State(memory, [Monitor(0, 263)]);
    assert [load][1..] == [] && Runs(false, t, []) && After(false, s, [load]) == t;
    var a := StoreExclusive(0, 0, 0, 9);
    assert Step(false, t, a).0.cpus == [Monitor(2, 263)];
  }

  lemma SevenOneZero()
    ensures Pow2(0) == 1 && Pow2(1) == 2 && Modulus(1) == 256
    ensures var memory: seq<Byte> := [7, 1, 0];
      && Load(false, memory, 0, 2) == 263 && Load(false, memory, 0, 1) == 7
      && Poke(false, memory, 0, 1, 9) == [9, 1, 0]
  {
    var memory: seq<Byte> := [7, 1, 0];
    assert memory[0..2] == [7, 1] && [7, 1][1..] == [1] && [1][1..] == [];
    assert Number([1]) == 1 && Number([7, 1]) == 263;
    assert memory[0..1] == [7] && [7][1..] == [] && Number([7]) == 7;
    OneMoreByte(0);
    assert Bytes(9, 0) == [] && Bytes(9, 1) == [9];
  }

  // Storing what is there already changes nothing.
  lemma PokeSame(be: bool, memory: seq<Byte>, addr: nat, n: nat, v: nat)
    requires addr + n <= |memory| && Load(be, memory, addr, n) == v % Modulus(n)
    ensures Poke(be, memory, addr, n, v) == memory
  {
    var there := memory[addr..addr + n];
    NumberOfBytes(v, n);
    SameNumber(Ordered(be, there), Bytes(v, n));
    OrderedTwice(be, there);
    Splice(memory, addr, n);
  }

  lemma OrderedTwice(be: bool, s: seq<Byte>)
    ensures Ordered(be, Ordered(be, s)) == s
  {
    ReversedTwice(s);
  }

  lemma Splice(memory: seq<Byte>, addr: nat, n: nat)
    requires addr + n <= |memory|
    ensures memory[..addr] + memory[addr..addr + n] + memory[addr + n..] == memory
  {}

  lemma {:induction false} SameNumber(s: seq<Byte>, t: seq<Byte>)
    requires |s| == |t| && Number(s) == Number(t)
    ensures s == t
  {
    if s != [] {
      SameNumber(s[1..], t[1..]);
      assert s == [s[0]] + s[1..] && t == [t[0]] + t[1..];
    }
  }

  // The value is compared, not the history: a location written and written back still matches.
  lemma WrittenBackIsNotNoticed(be: bool, s: State, cpu: nat, addr: nat, size: nat, other: nat, value: nat)
    requires AllClear(s) && cpu < |s.cpus| && Accessible(s.memory, addr, Pow2(size))
    ensures var v := Load(be, s.memory, addr, Pow2(size));
      var run := [LoadExclusive(cpu, addr, size), Store(addr, size, other), Store(addr, size, v)];
      && Runs(be, s, run)
      && Step(be, After(be, s, run), StoreExclusive(cpu, addr, size, value)).1 == Status(0)
  {
    var n := Pow2(size);
    var v := Load(be, s.memory, addr, n);
    var a, b, c := LoadExclusive(cpu, addr, size), Store(addr, size, other), Store(addr, size, v);
    var s1 := Step(be, s, a).0;
    var s2 := Step(be, s1, b).0;
    var s3 := Step(be, s2, c).0;
    assert [a, b, c][1..] == [b, c] && [b, c][1..] == [c] && [c][1..] == [];
    assert Runs(be, s2, [c]) && Runs(be, s1, [b, c]) && Runs(be, s, [a, b, c]);
    assert After(be, s2, [c]) == s3 && After(be, s1, [b, c]) == s3 && After(be, s, [a, b, c]) == s3;
    LoadFits(be, s.memory, addr, n);
    LoadOfPoke(be, s2.memory, addr, n, v);
    SmallRemainder(v, Modulus(n));
  }
}

// A counter that every CPU increments with load-exclusive, add one, store-exclusive.
module ExclusiveCounter {
  import opened Arithmetic
  import opened ByteMemory
  import opened ExclusiveModel

  // The location: Pow2(size) bytes at addr.
  datatype Location = Location(addr: nat, size: nat) {
    function Bytes(): nat
    {
      Pow2(size)
    }

    // An access that touches none of the bytes.
    predicate Apart(there: nat, n: nat)
    {
      there + n <= addr || addr + Bytes() <= there
    }
  }

  predicate Counts(s: State, at: Location)
  {
    s.memory != [] && Accessible(s.memory, at.addr, at.Bytes()) && at.addr != Cleared(s.memory)
  }

  // The register each CPU loads the counter into.
  function Registers(be: bool, s: State, a: Action, at: Location, regs: seq<nat>): (r: seq<nat>)
    requires Enabled(s, a) && |regs| == |s.cpus|
    ensures |r| == |regs|
  {
    if a.LoadExclusive? && a.addr == at.addr && Step(be, s, a).1.Loaded?
    then regs[a.cpu := Step(be, s, a).1.value]
    else regs
  }

  // The discipline: the counter is accessed as a whole, stored to only exclusively, and what a
  // CPU stores is one more than what it loaded.  Everything else is free.
  predicate Obeys(be: bool, s: State, a: Action, at: Location, regs: seq<nat>)
    requires Enabled(s, a) && |regs| == |s.cpus|
  {
    match a
    case LoadExclusive(_, addr, size) => addr == at.addr ==> size == at.size
    case StoreExclusive(cpu, addr, size, value) =>
      if addr == at.addr
      then size == at.size && value % Modulus(at.Bytes()) == (regs[cpu] + 1) % Modulus(at.Bytes())
      else at.Apart(addr, Pow2(size))
    case Clrex(_) => true
    case Store(addr, size, _) => at.Apart(addr, Pow2(size))
  }

  predicate Obedient(be: bool, s: State, run: seq<Action>, at: Location, regs: seq<nat>)
    decreases run
  {
    run == [] ||
    (&& Enabled(s, run[0]) && |regs| == |s.cpus| && Obeys(be, s, run[0], at, regs)
     && Obedient(be, Step(be, s, run[0]).0, run[1..], at, Registers(be, s, run[0], at, regs)))
  }

  predicate Succeeds(be: bool, s: State, a: Action, at: Location)
    requires Enabled(s, a)
  {
    a.StoreExclusive? && a.addr == at.addr && Step(be, s, a).1 == Status(0)
  }

  function Successes(be: bool, s: State, run: seq<Action>, at: Location): nat
    requires Runs(be, s, run)
    decreases run
  {
    if run == [] then 0
    else (if Succeeds(be, s, run[0], at) then 1 else 0) + Successes(be, Step(be, s, run[0]).0, run[1..], at)
  }

  // A CPU whose monitor shows the counter has the loaded value in its register.
  predicate InStep(s: State, at: Location, regs: seq<nat>)
  {
    && Counts(s, at)
    && |regs| == |s.cpus|
    && forall i :: 0 <= i < |regs| && s.cpus[i].addr == at.addr ==>
         s.cpus[i].val == regs[i] && regs[i] < Modulus(at.Bytes())
  }

  function Counter(be: bool, s: State, at: Location): nat
    requires Counts(s, at)
  {
    Load(be, s.memory, at.addr, at.Bytes())
  }

  lemma StepKeepsInStep(be: bool, s: State, a: Action, at: Location, regs: seq<nat>)
    requires InStep(s, at, regs) && Enabled(s, a) && Obeys(be, s, a, at, regs)
    ensures InStep(Step(be, s, a).0, at, Registers(be, s, a, at, regs))
  {
    if a.LoadExclusive? && Accessible(s.memory, a.addr, Pow2(a.size)) {
      LoadFits(be, s.memory, a.addr, Pow2(a.size));
    }
  }

  // Only a successful store moves the counter, and it moves it by one.
  lemma StepCounts(be: bool, s: State, a: Action, at: Location, regs: seq<nat>)
    requires InStep(s, at, regs) && Enabled(s, a) && Obeys(be, s, a, at, regs)
    ensures Counts(Step(be, s, a).0, at)
    ensures Counter(be, Step(be, s, a).0, at) ==
            if Succeeds(be, s, a, at) then (Counter(be, s, at) + 1) % Modulus(at.Bytes()) else Counter(be, s, at)
  {
    var n := at.Bytes();
    match a
    case LoadExclusive(_, _, _) =>
    case Clrex(_) =>
    case Store(addr, size, value) =>
      if Accessible(s.memory, addr, Pow2(size)) {
        LoadBesidePoke(be, s.memory, at.addr, n, addr, Pow2(size), value);
      }
    case StoreExclusive(cpu, addr, size, value) =>
      StoreCounts(be, s, cpu, addr, size, value, at, regs);
  }

  lemma StoreCounts(be: bool, s: State, cpu: nat, addr: nat, size: nat, value: nat, at: Location, regs: seq<nat>)
    requires var a := StoreExclusive(cpu, addr, size, value);
      InStep(s, at, regs) && Enabled(s, a) && Obeys(be, s, a, at, regs)
    ensures var a := StoreExclusive(cpu, addr, size, value);
      && Counts(Step(be, s, a).0, at)
      && Counter(be, Step(be, s, a).0, at) ==
         if Succeeds(be, s, a, at) then (Counter(be, s, at) + 1) % Modulus(at.Bytes()) else Counter(be, s, at)
  {
    if addr == s.cpus[cpu].addr && Accessible(s.memory, addr, Pow2(size)) {
      if addr == at.addr {
        SmallRemainder(regs[cpu], Modulus(at.Bytes()));
        LoadOfPoke(be, s.memory, addr, at.Bytes(), value);
      } else {
        LoadBesidePoke(be, s.memory, at.addr, at.Bytes(), addr, Pow2(size), value);
      }
    }
  }

  lemma AddRemainder(x: nat, k: nat, m: nat)
    requires m > 0
    ensures (x % m + k) % m == (x + k) % m
  {
    DivMod(x, m);
    DivMod(x % m + k, m);
    Distribute(m, x / m, (x % m + k) / m);
    DivUnique(x + k, m, x / m + (x % m + k) / m, (x % m + k) % m);
  }

  // Counting up from c, modulo m.

  function Next(c: nat, m: nat): (n: nat)
    requires c < m
    ensures n < m
  {
    if c + 1 == m then 0 else c + 1
  }

  function Counted(c: nat, k: nat, m: nat): (n: nat)
    requires c < m
    ensures n < m
  {
    if k == 0 then c else Next(Counted(c, k - 1, m), m)
  }

  lemma NextIs(c: nat, m: nat)
    requires c < m
    ensures (c + 1) % m == Next(c, m)
  {
    if c + 1 < m {
      SmallRemainder(c + 1, m);
    } else {
      DivUnique(c + 1, m, 1, 0);
    }
  }

  lemma {:induction false} CountedIs(c: nat, k: nat, m: nat)
    requires c < m
    ensures Counted(c, k, m) == (c + k) % m
  {
    if k == 0 {
      SmallRemainder(c, m);
    } else {
      CountedIs(c, k - 1, m);
      AddRemainder(c + k - 1, 1, m);
      NextIs(Counted(c, k - 1, m), m);
    }
  }

  lemma {:induction false} CountOneMore(c: nat, k: nat, m: nat)
    requires c < m
    ensures Counted(Next(c, m), k, m) == Counted(c, k + 1, m)
  {
    if k > 0 {
      CountOneMore(c, k - 1, m);
    }
  }

  lemma {:induction false} ObedientRuns(be: bool, s: State, run: seq<Action>, at: Location, regs: seq<nat>)
    requires Obedient(be, s, run, at, regs)
    ensures Runs(be, s, run)
    decreases run
  {
    if run != [] {
      ObedientRuns(be, Step(be, s, run[0]).0, run[1..], at, Registers(be, s, run[0], at, regs));
    }
  }

  lemma StepCountsUp(be: bool, s: State, a: Action, at: Location, regs: seq<nat>)
    requires InStep(s, at, regs) && Enabled(s, a) && Obeys(be, s, a, at, regs)
    ensures Counts(Step(be, s, a).0, at) && Counter(be, s, at) < Modulus(at.Bytes())
    ensures Counter(be, Step(be, s, a).0, at) ==
            if Succeeds(be, s, a, at) then Next(Counter(be, s, at), Modulus(at.Bytes())) else Counter(be, s, at)
  {
    LoadFits(be, s.memory, at.addr, at.Bytes());
    StepCounts(be, s, a, at, regs);
    NextIs(Counter(be, s, at), Modulus(at.Bytes()));
  }

  lemma {:induction false} CounterMoves(be: bool, s: State, run: seq<Action>, at: Location, regs: seq<nat>)
    requires InStep(s, at, regs) && Obedient(be, s, run, at, regs) && Runs(be, s, run)
    ensures Counts(After(be, s, run), at) && Counter(be, s, at) < Modulus(at.Bytes())
    ensures Counter(be, After(be, s, run), at) ==
            Counted(Counter(be, s, at), Successes(be, s, run, at), Modulus(at.Bytes()))
    decreases run
  {
    hide Load, Modulus, Obeys, StoreBy, LoadBy;
    LoadFits(be, s.memory, at.addr, at.Bytes());
    if run != [] {
      var a, rest := run[0], run[1..];
      var t := Step(be, s, a).0;
      StepKeepsInStep(be, s, a, at, regs);
      StepCountsUp(be, s, a, at, regs);
      CounterMoves(be, t, rest, at, Registers(be, s, a, at, regs));
      CountOneMore(Counter(be, s, at), Successes(be, t, rest, at), Modulus(at.Bytes()));
    }
  }

  // No increment is lost and none is counted twice: from reset, whatever the registers hold.
  lemma CounterCountsSuccesses(be: bool, s: State, run: seq<Action>, at: Location, regs: seq<nat>)
    requires AllClear(s) && Counts(s, at) && Obedient(be, s, run, at, regs) && |regs| == |s.cpus|
    ensures Runs(be, s, run) && Counts(After(be, s, run), at)
    ensures Counter(be, After(be, s, run), at) ==
            (Counter(be, s, at) + Successes(be, s, run, at)) % Modulus(at.Bytes())
  {
    ObedientRuns(be, s, run, at, regs);
    CounterMoves(be, s, run, at, regs);
    LoadFits(be, s.memory, at.addr, at.Bytes());
    CountedIs(Counter(be, s, at), Successes(be, s, run, at), Modulus(at.Bytes()));
  }
}

// The emitted code, on one CPU's monitor and the shared memory.
module Exclusives {
  import opened Arithmetic
  import opened ByteMemory
  import opened ExclusiveModel

  class Memory {
    var bytes: seq<Byte>

    constructor (contents: seq<Byte>)
      ensures bytes == contents
    {
      bytes := contents;
    }

    method CompareExchange(be: bool, addr: nat, n: nat, expected: nat, value: nat) returns (was: nat)
      requires addr + n <= |bytes|
      modifies this
      ensures was == Load(be, old(bytes), addr, n)
      ensures bytes == Exchanged(be, old(bytes), addr, n, expected, value)
    {
      was := Load(be, bytes, addr, n);
      if was == expected % Modulus(n) {
        bytes := Poke(be, bytes, addr, n, value);
      }
    }
  }

  class Cpu {
    var exclusiveAddr: nat
    var exclusiveVal: nat

    constructor (memory: Memory)
      requires memory.bytes != []
      ensures State().addr == Cleared(memory.bytes)
    {
      exclusiveAddr, exclusiveVal := |memory.bytes| - 1, 0;
    }

    function State(): Monitor
      reads this
    {
      Monitor(exclusiveAddr, exclusiveVal)
    }

    method GenClrex(memory: Memory)
      requires memory.bytes != []
      modifies this
      ensures State() == old(State()).(addr := Cleared(memory.bytes))
    {
      exclusiveAddr := |memory.bytes| - 1;
    }

    method GenLoadExclusive(be: bool, memory: Memory, addr: nat, size: nat) returns (outcome: Outcome)
      modifies this
      ensures (State(), outcome) == LoadBy(be, old(State()), memory.bytes, addr, size)
    {
      if !Accessible(memory.bytes, addr, Pow2(size)) {
        return Fault;
      }
      exclusiveVal := Load(be, memory.bytes, addr, Pow2(size));
      var rt := exclusiveVal;
      exclusiveAddr := addr;
      return Loaded(rt);
    }

    method GenStoreExclusive(be: bool, memory: Memory, addr: nat, size: nat, rt: nat) returns (outcome: Outcome)
      requires memory.bytes != []
      modifies this, memory
      ensures (State(), memory.bytes, outcome) ==
              StoreBy(be, old(State()), old(memory.bytes), addr, size, rt)
    {
      var rd;
      if addr != exclusiveAddr {
        rd := 1;
      } else {
        if !Accessible(memory.bytes, addr, Pow2(size)) {
          return Fault;
        }
        var tmp := memory.CompareExchange(be, exclusiveAddr, Pow2(size), exclusiveVal, rt);
        rd := if tmp != exclusiveVal then 1 else 0;
      }
      exclusiveAddr := |memory.bytes| - 1;
      return Status(rd);
    }
  }
}
