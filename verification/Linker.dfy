/**
 The dynamic linker: symbol lookup through a System V hash table, load-order
 scope, and the relocations of the AMD64 psABI applied to memory.
 */
module Linker {
  import opened Bytes
  import opened Wrappers

  type Text = seq<bv8>
  type Word64 = v: int | 0 <= v < 0x1_0000_0000_0000_0000
  type Memory = nat -> Byte

  const WRAP64 := 0x1_0000_0000_0000_0000
  const MAX_OBJECTS := 8

  const R_64 := 1
  const R_COPY := 5
  const R_GLOB_DAT := 6
  const R_JUMP_SLOT := 7
  const R_RELATIVE := 8
  const LOCAL := 0
  const WEAK := 2

  datatype Symbol = Symbol(name: Text, bind: nat, isDefined: bool, value: Word64)
  datatype Rela = Rela(offset: Word64, kind: nat, index: nat, addend: int)
  datatype Object = Object(base: Word64, hasSymbols: bool, hasStrings: bool, hasHash: bool,
                           symbols: seq<Symbol>, buckets: seq<nat>, chain: seq<nat>,
                           rela: seq<Rela>, jmprel: seq<Rela>)

  function Add(a: int, b: int): Word64 { (a + b) % WRAP64 }

  // ---- the hash ----

  function HashStep(h: bv32, c: bv8): bv32 {
    Folded((h << 4) + (c as bv32))
  }

  /** The top four bits folded into bits 4 to 7 and cleared. */
  function Folded(x: bv32): bv32 {
    var high := x & 0xF000_0000;
    if high != 0 then (x ^ (high >> 24)) & !high else x & !high
  }

  function HashFrom(h: bv32, name: Text): bv32
    decreases |name|
  {
    if name == [] then h else HashFrom(HashStep(h, name[0]), name[1..])
  }

  method ElfHash(name: Text) returns (h: bv32)
    ensures h == HashFrom(0, name) == GabiFrom(0, name)
  {
    HashIsGabi(0, name);
    h := 0;
    var i := 0;
    while i < |name|
      invariant 0 <= i <= |name| && HashFrom(h, name[i..]) == HashFrom(0, name)
    {
      assert name[i..][1..] == name[i + 1..];
      h := Folded((h << 4) + (name[i] as bv32));
      i := i + 1;
    }
  }

  /** The top four bits, exclusive-ored into the second four, and nothing else. */
  lemma FoldedIs(x: bv32)
    ensures Folded(x) == (x & 0x0FFF_FFFF) ^ ((x >> 28) << 4)
  {
  }

  lemma FoldedBelow(x: bv32)
    ensures Folded(x) & 0xF000_0000 == 0
  {
    FoldedIs(x);
  }

  lemma OthersKept(x: bv32)
    ensures ((x & 0x0FFF_FFFF) ^ ((x >> 28) << 4)) & 0x0FFF_FF0F == x & 0x0FFF_FF0F
  {
  }

  /** Bit by bit: the other bits below stay, the second four are exclusive-ored, the top four are clear. */
  lemma FoldedBits(x: bv32)
    ensures Folded(x) & 0x0FFF_FF0F == x & 0x0FFF_FF0F
    ensures (Folded(x) >> 4) & 0xF == ((x >> 4) & 0xF) ^ (x >> 28)
    ensures Folded(x) >> 28 == 0
  {
    FoldedIs(x);
    OthersKept(x);
  }

  /** The reference, in arithmetic modulo 2^32: sixteen times the hash so far plus the byte, then the fold. */
  function GabiFrom(h: bv32, name: Text): bv32
    decreases |name|
  {
    if name == [] then h
    else
      var y := h * 16 + (name[0] as bv32);
      GabiFrom((y & 0x0FFF_FFFF) ^ ((y >> 28) << 4), name[1..])
  }

  lemma StepIs(h: bv32, c: bv8)
    ensures var y := h * 16 + (c as bv32); HashStep(h, c) == (y & 0x0FFF_FFFF) ^ ((y >> 28) << 4)
  {
    assert h << 4 == h * 16;
    FoldedIs((h << 4) + (c as bv32));
  }

  /** The loop computes the hash of the System V gABI, for every name. */
  lemma {:induction false} HashIsGabi(h: bv32, name: Text)
    ensures HashFrom(h, name) == GabiFrom(h, name)
    decreases |name|
  {
    if name != [] {
      StepIs(h, name[0]);
      HashIsGabi(HashStep(h, name[0]), name[1..]);
    }
  }

  /** Bytes read as the digits of a number in base 16. */
  function Base16(h: bv32, name: Text): bv32
    decreases |name|
  {
    if name == [] then h else Base16(h * 16 + (name[0] as bv32), name[1..])
  }

  /** The most that `k` bytes below 128 come to, up to six. */
  function Most(k: nat): bv32 {
    if k == 0 then 0 else if k == 1 then 0x7F else if k == 2 then 0x86F else if k == 3 then 0x876F
    else if k == 4 then 0x8_776F else if k == 5 then 0x87_776F else 0x877_776F
  }

  lemma ShortStep(h: bv32, c: bv8, most: bv32, next: bv32)
    requires h <= most <= 0x0087_776F && c < 128 && next == most * 16 + 127
    ensures HashStep(h, c) == h * 16 + (c as bv32) && HashStep(h, c) <= next
  {
    StepIs(h, c);
  }

  lemma ShortNext(h: bv32, c: bv8, k: nat)
    requires k < 6 && h <= Most(k) && c < 128
    ensures HashStep(h, c) == h * 16 + (c as bv32) && HashStep(h, c) <= Most(k + 1)
  {
    ShortStep(h, c, Most(k), Most(k + 1));
  }

  predicate Seven(name: Text) { forall i :: 0 <= i < |name| ==> name[i] < 128 }

  lemma Base16More(h: bv32, name: Text, g: bv32)
    requires name != [] && g == h * 16 + (name[0] as bv32)
    ensures Base16(h, name) == Base16(g, name[1..])
  {
  }

  /** A name of at most six bytes below 128 folds nothing: its hash is its bytes read in base 16. */
  lemma {:induction false} ShortHash(h: bv32, name: Text, k: nat)
    requires k + |name| <= 6 && h <= Most(k) && Seven(name)
    ensures HashFrom(h, name) == Base16(h, name)
    decreases |name|
  {
    if name != [] {
      var g := HashStep(h, name[0]);
      ShortNext(h, name[0], k);
      Base16More(h, name, g);
      ShortHash(g, name[1..], k + 1);
    }
  }

  /** A hash fits in 28 bits, whatever the name. */
  lemma {:induction false} HashBelow(h: bv32, name: Text)
    requires h & 0xF000_0000 == 0
    ensures HashFrom(h, name) & 0xF000_0000 == 0
    decreases |name|
  {
    if name != [] {
      FoldedBelow((h << 4) + (name[0] as bv32));
      HashBelow(HashStep(h, name[0]), name[1..]);
    }
  }

  /** The hash of "syscall", whose last step folds: the value the gABI's definition gives. */
  lemma HashOfSyscall()
    ensures HashFrom(0, [0x73, 0x79, 0x73, 0x63, 0x61, 0x6C, 0x6C]) == 0x0B09_985C
  {
    var name: Text := [0x73, 0x79, 0x73, 0x63, 0x61, 0x6C, 0x6C];
    assert HashStep(0, 0x73) == 0x73 && HashStep(0x73, 0x79) == 0x7A9 && HashStep(0x7A9, 0x73) == 0x7B03;
    assert HashStep(0x7B03, 0x63) == 0x7_B093 && HashStep(0x7_B093, 0x61) == 0x7B_0991;
    assert HashStep(0x7B_0991, 0x6C) == 0x7B0_997C && HashStep(0x7B0_997C, 0x6C) == 0x0B09_985C;
    assert HashFrom(0, name) == HashFrom(0x73, name[1..]);
    assert HashFrom(0x73, name[1..]) == HashFrom(0x7A9, name[2..]);
    assert HashFrom(0x7A9, name[2..]) == HashFrom(0x7B03, name[3..]);
    assert HashFrom(0x7B03, name[3..]) == HashFrom(0x7_B093, name[4..]);
    assert HashFrom(0x7_B093, name[4..]) == HashFrom(0x7B_0991, name[5..]);
    assert HashFrom(0x7B_0991, name[5..]) == HashFrom(0x7B0_997C, name[6..]);
    assert HashFrom(0x7B0_997C, name[6..]) == HashFrom(0x0B09_985C, name[7..]);
  }

  /** One letter more, and a fold of the top bit. */
  lemma HashOfSyscalls()
    ensures HashFrom(0x0B09_985C, [0x73]) == 0x0099_8683
  {
    assert HashStep(0x0B09_985C, 0x73) == 0x0099_8683;
    assert [0x73 as bv8][1..] == [];
  }

  function Bucket(name: Text, n: nat): nat
    requires n > 0
  {
    (HashFrom(0, name) as int) % n
  }

  // ---- one object ----

  predicate Usable(o: Object) { o.hasHash && o.hasSymbols && o.hasStrings && o.buckets != [] }

  /** What the linker relies on before it may look at a table: one chain entry per symbol. */
  predicate Shaped(o: Object) { o.hasHash ==> |o.chain| == |o.symbols| }

  predicate Matches(s: Symbol, name: Text) { s.isDefined && s.name == name }

  /** The reference: the first symbol of that name the object defines. */
  function Scan(o: Object, name: Text, i: nat): (r: Option<Word64>)
    requires i <= |o.symbols|
    decreases |o.symbols| - i
  {
    if i == |o.symbols| then None
    else if Matches(o.symbols[i], name) then Some(Add(o.base, o.symbols[i].value))
    else Scan(o, name, i + 1)
  }

  function Definition(o: Object, name: Text): Option<Word64> { Scan(o, name, 0) }

  /** Whether a chain comes to an end, inside the table or by leaving it. */
  predicate Ends(o: Object, i: nat, steps: nat)
    decreases steps
  {
    i == 0 || i >= |o.chain| || (steps > 0 && Ends(o, o.chain[i], steps - 1))
  }

  function Follow(o: Object, i: nat, steps: nat): seq<nat>
    decreases steps
  {
    if i == 0 || i >= |o.chain| || steps == 0 then [] else [i] + Follow(o, o.chain[i], steps - 1)
  }

  function Chained(o: Object, i: nat, steps: nat, name: Text): Option<Word64>
    requires |o.chain| == |o.symbols|
    decreases steps
  {
    if i == 0 || i >= |o.chain| || steps == 0 then None
    else if Matches(o.symbols[i], name) then Some(Add(o.base, o.symbols[i].value))
    else Chained(o, o.chain[i], steps - 1, name)
  }

  /** No chain of the table runs forever. */
  predicate Finite(o: Object) {
    forall b :: 0 <= b < |o.buckets| ==> Ends(o, o.buckets[b], |o.chain|)
  }

  /** The bucket the link editor files a name in. */
  function FiledIn(name: Text, n: nat): nat
    requires n > 0
  {
    (GabiFrom(0, name) as int) % n
  }

  /** Every defined symbol hangs in the bucket of its hash. */
  predicate Threaded(o: Object)
    requires o.buckets != []
  {
    forall s :: 0 <= s < |o.symbols| && o.symbols[s].isDefined ==>
      s in Follow(o, o.buckets[FiledIn(o.symbols[s].name, |o.buckets|)], |o.chain|)
  }

  predicate UniqueNames(o: Object) {
    forall s, t :: 0 <= s < t < |o.symbols| && o.symbols[s].isDefined && o.symbols[t].isDefined ==>
      o.symbols[s].name != o.symbols[t].name
  }

  /** A table as the link editor writes it (chapter 5 of the System V gABI). */
  predicate WellFormed(o: Object) {
    && Shaped(o) && UniqueNames(o)
    && if Usable(o) then Finite(o) && Threaded(o)
       else forall s :: 0 <= s < |o.symbols| ==> !o.symbols[s].isDefined
  }

  function OrZero(r: Option<Word64>): Word64 { if r.Some? then r.value else 0 }

  function Hashed(o: Object, name: Text): Option<Word64>
    requires Shaped(o)
  {
    if !Usable(o) then None else Chained(o, o.buckets[Bucket(name, |o.buckets|)], |o.chain|, name)
  }

  /** The definition of a name in one object through its hash table, or 0. */
  method Defines(o: Object, name: Text) returns (r: Word64)
    requires Shaped(o) && Finite(o)
    ensures r == OrZero(Hashed(o, name))
  {
    if !o.hasHash || !o.hasSymbols || !o.hasStrings || |o.buckets| == 0 {
      return 0;
    }
    var h := ElfHash(name);
    var i: nat := o.buckets[(h as int) % |o.buckets|];
    ghost var steps: nat := |o.chain|;
    while i != 0
      invariant Ends(o, i, steps) && Chained(o, i, steps, name) == Hashed(o, name)
      decreases steps
    {
      if i >= |o.chain| {
        return 0;
      }
      if Matches(o.symbols[i], name) {
        return Add(o.base, o.symbols[i].value);
      }
      i := o.chain[i];
      steps := steps - 1;
    }
    return 0;
  }

  lemma {:induction false} ChainedSound(o: Object, i: nat, steps: nat, name: Text) returns (s: nat)
    requires |o.chain| == |o.symbols| && Chained(o, i, steps, name).Some?
    ensures s < |o.symbols| && Matches(o.symbols[s], name)
    ensures Chained(o, i, steps, name) == Some(Add(o.base, o.symbols[s].value))
    decreases steps
  {
    if Matches(o.symbols[i], name) {
      s := i;
    } else {
      s := ChainedSound(o, o.chain[i], steps - 1, name);
    }
  }

  lemma {:induction false} ChainedMeets(o: Object, i: nat, steps: nat, name: Text, s: nat)
    requires |o.chain| == |o.symbols| && s in Follow(o, i, steps) && s < |o.symbols| && Matches(o.symbols[s], name)
    ensures Chained(o, i, steps, name).Some?
    decreases steps
  {
    if !Matches(o.symbols[i], name) {
      assert s in Follow(o, o.chain[i], steps - 1);
      ChainedMeets(o, o.chain[i], steps - 1, name, s);
    }
  }

  lemma {:induction false} ScanSound(o: Object, name: Text, i: nat) returns (s: nat)
    requires i <= |o.symbols| && Scan(o, name, i).Some?
    ensures i <= s < |o.symbols| && Matches(o.symbols[s], name)
    ensures Scan(o, name, i) == Some(Add(o.base, o.symbols[s].value))
    decreases |o.symbols| - i
  {
    if Matches(o.symbols[i], name) {
      s := i;
    } else {
      s := ScanSound(o, name, i + 1);
    }
  }

  lemma {:induction false} ScanMeets(o: Object, name: Text, i: nat, s: nat)
    requires i <= s < |o.symbols| && Matches(o.symbols[s], name)
    ensures Scan(o, name, i).Some?
    decreases s - i
  {
    if !Matches(o.symbols[i], name) {
      ScanMeets(o, name, i + 1, s);
    }
  }

  /** On a well-formed table the hash chain finds exactly what a linear scan finds. */
  lemma HashedIsScan(o: Object, name: Text)
    requires WellFormed(o)
    ensures Hashed(o, name) == Definition(o, name)
  {
    HashIsGabi(0, name);
    if Definition(o, name).Some? {
      var s := ScanSound(o, name, 0);
      assert Usable(o);
      var first := o.buckets[Bucket(name, |o.buckets|)];
      ChainedMeets(o, first, |o.chain|, name, s);
      var t := ChainedSound(o, first, |o.chain|, name);
      assert s == t;
    } else if Usable(o) {
      var first := o.buckets[Bucket(name, |o.buckets|)];
      if Chained(o, first, |o.chain|, name).Some? {
        var t := ChainedSound(o, first, |o.chain|, name);
        ScanMeets(o, name, 0, t);
      }
    }
  }

  // ---- load order ----

  /** The rule of scope: the first object in load order that defines the name. */
  function FirstDefinition(objects: seq<Object>, name: Text): Option<Word64> {
    if objects == [] then None
    else if Definition(objects[0], name).Some? then Definition(objects[0], name)
    else FirstDefinition(objects[1..], name)
  }

  predicate AllShaped(objects: seq<Object>) { forall o :: o in objects ==> Shaped(o) }

  predicate AllWellFormed(objects: seq<Object>) {
    AllShaped(objects) && forall o :: o in objects ==> WellFormed(o)
  }

  function Found(objects: seq<Object>, name: Text): Word64
    requires AllShaped(objects)
  {
    if objects == [] then 0
    else if OrZero(Hashed(objects[0], name)) != 0 then OrZero(Hashed(objects[0], name))
    else Found(objects[1..], name)
  }

  method Lookup(objects: seq<Object>, name: Text) returns (r: Word64)
    requires AllShaped(objects) && forall o :: o in objects ==> Finite(o)
    ensures r == Found(objects, name)
  {
    var i := 0;
    while i < |objects|
      invariant 0 <= i <= |objects| && Found(objects[i..], name) == Found(objects, name)
    {
      assert objects[i..][1..] == objects[i + 1..];
      var value := Defines(objects[i], name);
      if value != 0 {
        return value;
      }
      i := i + 1;
    }
    return 0;
  }

  /** A definition at address 0, which the search takes for none, before one elsewhere. */
  predicate ZeroShadowed(objects: seq<Object>, name: Text) {
    objects != [] &&
    if Definition(objects[0], name) == Some(0) then Elsewhere(objects[1..], name)
    else Definition(objects[0], name).None? && ZeroShadowed(objects[1..], name)
  }

  predicate Elsewhere(objects: seq<Object>, name: Text) {
    exists i :: 0 <= i < |objects| && OrZero(Definition(objects[i], name)) != 0
  }

  lemma {:induction false} FoundElsewhereIff(objects: seq<Object>, name: Text)
    requires AllWellFormed(objects)
    ensures Found(objects, name) != 0 <==> Elsewhere(objects, name)
  {
    if objects != [] {
      HashedIsScan(objects[0], name);
      FoundElsewhereIff(objects[1..], name);
      if Elsewhere(objects[1..], name) {
        var i :| 0 <= i < |objects[1..]| && OrZero(Definition(objects[1..][i], name)) != 0;
        assert OrZero(Definition(objects[i + 1], name)) != 0;
      }
      if Elsewhere(objects, name) && OrZero(Definition(objects[0], name)) == 0 {
        var i :| 0 <= i < |objects| && OrZero(Definition(objects[i], name)) != 0;
        assert objects[1..][i - 1] == objects[i];
      }
    }
  }

  /** The search obeys the scope rule exactly when no definition at address 0 hides another. */
  lemma {:induction false} FoundIsFirstIff(objects: seq<Object>, name: Text)
    requires AllWellFormed(objects)
    ensures Found(objects, name) == OrZero(FirstDefinition(objects, name)) <==> !ZeroShadowed(objects, name)
  {
    if objects != [] {
      HashedIsScan(objects[0], name);
      FoundElsewhereIff(objects[1..], name);
      FoundIsFirstIff(objects[1..], name);
    }
  }

  /** An object that defines the one symbol "a". */
  function Lone(base: Word64, bind: nat, value: Word64): Object {
    Object(base, true, true, true, [Symbol([], 0, false, 0), Symbol([97], bind, true, value)], [1], [0, 0], [], [])
  }

  predicate IsLone(o: Object) {
    && o.hasSymbols && o.hasStrings && o.hasHash && o.buckets == [1] && o.chain == [0, 0]
    && |o.symbols| == 2 && o.symbols[0] == Symbol([], 0, false, 0) && o.symbols[1].name == [97] && o.symbols[1].isDefined
  }

  lemma OneSymbol(o: Object)
    requires IsLone(o)
    ensures WellFormed(o) && Definition(o, [97]) == Some(Add(o.base, o.symbols[1].value))
    ensures VisibleFrom(o, [97], 0) == if o.symbols[1].bind == LOCAL then None else Definition(o, [97])
  {
    OneSymbolFinite(o);
    OneSymbolThreaded(o);
    assert UniqueNames(o);
    assert Scan(o, [97], 0) == Scan(o, [97], 1) == Some(Add(o.base, o.symbols[1].value));
    assert VisibleFrom(o, [97], 0) == VisibleFrom(o, [97], 1);
    assert VisibleFrom(o, [97], 2) == None;
  }

  lemma OneSymbolFinite(o: Object)
    requires IsLone(o)
    ensures Finite(o)
  {
    assert Ends(o, 0, 1) && Ends(o, 1, 2);
  }

  lemma OneSymbolThreaded(o: Object)
    requires IsLone(o)
    ensures Threaded(o)
  {
    assert FiledIn([97], 1) == 0;
    assert Follow(o, 1, 2) == [1] + Follow(o, 0, 1) == [1];
  }

  /** The search of a scope that begins with such an object. */
  lemma OneFound(objects: seq<Object>, o: Object)
    requires AllShaped(objects) && |objects| > 0 && objects[0] == o && IsLone(o)
    ensures var v := Add(o.base, o.symbols[1].value);
            Found(objects, [97]) == if v != 0 then v else Found(objects[1..], [97])
    ensures o.symbols[1].bind != LOCAL ==> FirstVisible(objects, [97]) == Some(Add(o.base, o.symbols[1].value))
    ensures FirstDefinition(objects, [97]) == Some(Add(o.base, o.symbols[1].value))
  {
    OneSymbol(o);
    HashedIsScan(o, [97]);
  }

  /** A library defining a name at address 0 does not hide the next one's definition. */
  lemma ZeroIsPassedOver()
    ensures var zero, next := Lone(0, 1, 0), Lone(4096, 1, 0);
            WellFormed(zero) && WellFormed(next) && FirstDefinition([zero, next], [97]) == Some(0) &&
            Found([zero, next], [97]) == 4096
  {
    var zero, next := Lone(0, 1, 0), Lone(4096, 1, 0);
    OneSymbol(zero);
    OneSymbol(next);
    OneFound([zero, next], zero);
    assert [zero, next][1..] == [next];
    OneFound([next], next);
  }

  // ---- relocations ----

  datatype Failure = NoSymbols | Undefined(name: Text) | CopyRelocation | UnknownType | BadTable
  datatype Outcome<T> = Ok(value: T) | Die(why: Failure)

  /** A relocation of one object needs an entry of that object's symbol table. */
  predicate Indexed(o: Object, r: Rela) {
    r.kind != R_RELATIVE && o.hasSymbols && o.hasStrings ==> r.index < |o.symbols|
  }

  /** What a relocation stores, or why the linker stops. */
  function Resolved(objects: seq<Object>, o: Object, r: Rela): Outcome<Word64>
    requires AllShaped(objects) && Indexed(o, r)
  {
    if r.kind == R_RELATIVE then Ok(Add(o.base, r.addend))
    else if !o.hasSymbols || !o.hasStrings then Die(NoSymbols)
    else
      var symbol := o.symbols[r.index];
      var value := Found(objects, symbol.name);
      if value == 0 then if symbol.bind == WEAK then Ok(0) else Die(Undefined(symbol.name))
      else if r.kind == R_JUMP_SLOT || r.kind == R_GLOB_DAT then Ok(value)
      else if r.kind == R_64 then Ok(Add(value, r.addend))
      else if r.kind == R_COPY then Die(CopyRelocation)
      else Die(UnknownType)
  }

  predicate Known(kind: nat) { kind in {R_RELATIVE, R_JUMP_SLOT, R_GLOB_DAT, R_64} }

  /** The first symbol of that name the object defines for others to see. */
  function VisibleFrom(o: Object, name: Text, i: nat): Option<Word64>
    requires i <= |o.symbols|
    decreases |o.symbols| - i
  {
    if i == |o.symbols| then None
    else if Matches(o.symbols[i], name) && o.symbols[i].bind != LOCAL then Some(Add(o.base, o.symbols[i].value))
    else VisibleFrom(o, name, i + 1)
  }

  function FirstVisible(objects: seq<Object>, name: Text): Option<Word64> {
    if objects == [] then None
    else
      var here := VisibleFrom(objects[0], name, 0);
      if here.Some? then here else FirstVisible(objects[1..], name)
  }

  /**
   The value S of a relocation's symbol (chapter 4 of the System V gABI): entry 0
   is the undefined symbol, whose value is 0; a local symbol is the object's own;
   any other is the first definition in load order that can be seen, and a weak
   one without a definition is 0.
   */
  function SymbolValue(objects: seq<Object>, o: Object, index: nat): Option<Word64>
    requires index == 0 || index < |o.symbols|
  {
    if index == 0 then Some(0)
    else
      var symbol := o.symbols[index];
      if symbol.bind == LOCAL then if symbol.isDefined then Some(Add(o.base, symbol.value)) else None
      else if FirstVisible(objects, symbol.name).None? && symbol.bind == WEAK then Some(0)
      else FirstVisible(objects, symbol.name)
  }

  function WithAddend(s: Word64, r: Rela): Word64 { if r.kind == R_64 then Add(s, r.addend) else s }

  /**
   Section 4.4.1 of the AMD64 psABI: B + A, S, or S + A. Nothing for a symbol
   without a value, or for a type that is none of these.
   */
  function Meaning(objects: seq<Object>, o: Object, r: Rela): Option<Word64>
    requires Indexed(o, r)
  {
    if r.kind == R_RELATIVE then Some(Add(o.base, r.addend))
    else if !Known(r.kind) || (r.index != 0 && !Named(o, r)) then None
    else
      var s := SymbolValue(objects, o, r.index);
      if s.None? then None else Some(WithAddend(s.value, r))
  }

  predicate Named(o: Object, r: Rela) { r.kind != R_RELATIVE && o.hasSymbols && o.hasStrings }

  /** The first definition in load order that is not at address 0, whether it can be seen or not. */
  function FirstNonzero(objects: seq<Object>, name: Text): (r: Option<Word64>)
    ensures r.Some? ==> r.value != 0
  {
    if objects == [] then None
    else if OrZero(Definition(objects[0], name)) != 0 then Definition(objects[0], name)
    else FirstNonzero(objects[1..], name)
  }

  lemma {:induction false} FoundIsNonzero(objects: seq<Object>, name: Text)
    requires AllWellFormed(objects)
    ensures Found(objects, name) == OrZero(FirstNonzero(objects, name))
  {
    if objects != [] {
      HashedIsScan(objects[0], name);
      FoundIsNonzero(objects[1..], name);
    }
  }

  /**
   Where the linker does not do what the psABI asks. It goes by the name alone, to
   a definition that is not at 0: with one, that must be the symbol's value; with
   none, a weak symbol must come to 0 and any other have no value at all. Entry 0
   of a symbol table is not looked up in an object that has no table.
   */
  predicate Misread(objects: seq<Object>, o: Object, r: Rela)
    requires Indexed(o, r)
  {
    if !Named(o, r) then r.kind != R_RELATIVE && Known(r.kind) && r.index == 0
    else
      var symbol, s := o.symbols[r.index], SymbolValue(objects, o, r.index);
      match FirstNonzero(objects, symbol.name)
      case Some(v) => Known(r.kind) && s != Some(v)
      case None =>
        if symbol.bind == WEAK then !Known(r.kind) || s.None? || WithAddend(s.value, r) != 0
        else Known(r.kind) && s.Some?
  }

  function Stored(r: Outcome<Word64>): Option<Word64> { if r.Ok? then Some(r.value) else None }

  /** The linker stores what the psABI says, or stops where there is nothing to store, except in exactly those cases. */
  lemma ResolvedIffMeaning(objects: seq<Object>, o: Object, r: Rela)
    requires AllWellFormed(objects) && Indexed(o, r)
    ensures Stored(Resolved(objects, o, r)) == Meaning(objects, o, r) <==> !Misread(objects, o, r)
  {
    if Named(o, r) {
      FoundIsNonzero(objects, o.symbols[r.index].name);
    }
  }

  // ---- the cases by name ----

  /** What the search finds, against the first definition in load order. */
  lemma {:induction false} FoundAgainstFirst(objects: seq<Object>, name: Text)
    requires AllWellFormed(objects)
    ensures var s := FirstDefinition(objects, name);
            && (s.None? ==> Found(objects, name) == 0)
            && (s.Some? && s.value != 0 ==> Found(objects, name) == s.value)
            && (s == Some(0) ==> (Found(objects, name) != 0 <==> ZeroShadowed(objects, name)))
  {
    if objects != [] {
      HashedIsScan(objects[0], name);
      FoundElsewhereIff(objects[1..], name);
      FoundAgainstFirst(objects[1..], name);
    }
  }

  predicate NoLocals(objects: seq<Object>) {
    forall o :: o in objects ==> forall s :: s in o.symbols && s.isDefined ==> s.bind != LOCAL
  }

  lemma {:induction false} VisibleIsScan(o: Object, name: Text, i: nat)
    requires i <= |o.symbols| && forall s :: s in o.symbols && s.isDefined ==> s.bind != LOCAL
    ensures VisibleFrom(o, name, i) == Scan(o, name, i)
    decreases |o.symbols| - i
  {
    if i < |o.symbols| {
      assert o.symbols[i] in o.symbols;
      VisibleIsScan(o, name, i + 1);
    }
  }

  lemma {:induction false} VisibleIsFirst(objects: seq<Object>, name: Text)
    requires NoLocals(objects)
    ensures FirstVisible(objects, name) == FirstDefinition(objects, name)
  {
    if objects != [] {
      VisibleIsScan(objects[0], name, 0);
      VisibleIsFirst(objects[1..], name);
    }
  }

  /** A 64-bit relocation against a weak symbol, with something to add. */
  predicate WeakAddend(symbol: Symbol, r: Rela) { symbol.bind == WEAK && r.kind == R_64 && r.addend % WRAP64 != 0 }

  /**
   For global and weak symbols: 0 stands for "not found", so a weak symbol without
   a definition, or with one at address 0, loses its addend and hides a relocation
   type the linker does not know; and a definition at address 0 is passed over, for
   a later one or for none.
   */
  predicate MisreadZero(objects: seq<Object>, o: Object, r: Rela)
    requires r.index < |o.symbols|
  {
    var symbol := o.symbols[r.index];
    match FirstDefinition(objects, symbol.name)
    case None => WeakAddend(symbol, r) || (symbol.bind == WEAK && !Known(r.kind))
    case Some(s) =>
      s == 0 &&
      if Known(r.kind) then ZeroShadowed(objects, symbol.name) || symbol.bind != WEAK || WeakAddend(symbol, r)
      else symbol.bind == WEAK && !ZeroShadowed(objects, symbol.name)
  }

  /** Among objects that define no local symbols, a global or weak symbol is misread only on account of 0. */
  lemma GlobalMisreadIff(objects: seq<Object>, o: Object, r: Rela)
    requires AllWellFormed(objects) && NoLocals(objects) && Indexed(o, r) && Named(o, r)
    requires r.index != 0 && o.symbols[r.index].bind != LOCAL
    ensures Misread(objects, o, r) <==> MisreadZero(objects, o, r)
  {
    var name := o.symbols[r.index].name;
    FoundAgainstFirst(objects, name);
    FoundIsNonzero(objects, name);
    VisibleIsFirst(objects, name);
  }

  /** A symbol whose only definition is at address 0: S + A is 0, and the linker calls it undefined. */
  lemma ZeroIsUndefined()
    ensures var o := Lone(0, 1, 0).(rela := [Rela(64, R_64, 1, 0)]);
            && WellFormed(o) && !ZeroShadowed([o], [97])
            && Meaning([o], o, o.rela[0]) == Some(0) && Resolved([o], o, o.rela[0]) == Die(Undefined([97]))
  {
    var o := Lone(0, 1, 0).(rela := [Rela(64, R_64, 1, 0)]);
    OneSymbol(o);
    OneFound([o], o);
  }

  /** A weak undefined symbol with an addend: S + A is 8, and 0 is stored. */
  lemma WeakAddendStoresZero()
    ensures var o := Object(4096, true, true, false, [Symbol([], 0, false, 0), Symbol([97], WEAK, false, 0)], [], [],
                            [Rela(0, R_64, 1, 8)], []);
            WellFormed(o) && Meaning([o], o, o.rela[0]) == Some(8) && Resolved([o], o, o.rela[0]) == Ok(0)
  {
    var o := Object(4096, true, true, false, [Symbol([], 0, false, 0), Symbol([97], WEAK, false, 0)], [], [],
                    [Rela(0, R_64, 1, 8)], []);
    assert [o][1..] == [] && AllShaped([o]);
    assert VisibleFrom(o, [97], 0) == VisibleFrom(o, [97], 1) == VisibleFrom(o, [97], 2);
    assert FirstVisible([o], [97]) == FirstVisible([], [97]);
    assert Found([o], [97]) == Found([], [97]);
  }

  /** A relocation against entry 0: S + A is 8, and the linker calls the empty name undefined. */
  lemma EntryZeroIsUndefined()
    ensures var o := Lone(4096, 1, 0).(rela := [Rela(64, R_64, 0, 8)]);
            && WellFormed(o)
            && Meaning([o], o, o.rela[0]) == Some(8) && Resolved([o], o, o.rela[0]) == Die(Undefined([]))
  {
    var o := Lone(4096, 1, 0).(rela := [Rela(64, R_64, 0, 8)]);
    OneSymbol(o);
    assert [o][1..] == [] && AllWellFormed([o]);
    HashedIsScan(o, []);
    assert Scan(o, [], 0) == Scan(o, [], 1) == Scan(o, [], 2);
    assert Found([o], []) == Found([], []);
  }

  /** A library's own local symbol, taken from the program that defines a global of that name. */
  lemma LocalIsOverridden()
    ensures var program := Lone(4096, 1, 0);
            var library := Lone(8192, LOCAL, 0).(rela := [Rela(64, R_64, 1, 0)]);
            && WellFormed(program) && WellFormed(library)
            && Meaning([program, library], library, library.rela[0]) == Some(8192)
            && Resolved([program, library], library, library.rela[0]) == Ok(4096)
  {
    var program, library := Lone(4096, 1, 0), Lone(8192, LOCAL, 0).(rela := [Rela(64, R_64, 1, 0)]);
    OneSymbol(program);
    OneSymbol(library);
    OneFound([program, library], program);
  }

  /** A program's undefined symbol, answered by a library's local one. */
  lemma LocalAnswers()
    ensures var program := Object(4096, true, true, false, [Symbol([], 0, false, 0), Symbol([97], 1, false, 0)], [], [],
                                  [Rela(64, R_64, 1, 0)], []);
            var library := Lone(8192, LOCAL, 0);
            && WellFormed(program) && WellFormed(library)
            && Meaning([program, library], program, program.rela[0]) == None
            && Resolved([program, library], program, program.rela[0]) == Ok(8192)
  {
    var program := Object(4096, true, true, false, [Symbol([], 0, false, 0), Symbol([97], 1, false, 0)], [], [],
                          [Rela(64, R_64, 1, 0)], []);
    var library := Lone(8192, LOCAL, 0);
    OneSymbol(library);
    OneFound([library], library);
    assert [program, library][1..] == [library] && [library][1..] == [];
    assert VisibleFrom(program, [97], 0) == VisibleFrom(program, [97], 1) == VisibleFrom(program, [97], 2);
    assert VisibleFrom(library, [97], 0) == VisibleFrom(library, [97], 1) == VisibleFrom(library, [97], 2);
    assert FirstVisible([library], [97]) == FirstVisible([], [97]);
  }

  // ---- memory ----

  /** One store of eight bytes, least significant first. */
  function LittleByte(v: Word64, k: nat): Byte
    decreases k
  {
    if k == 0 then v % 256 else LittleByte(v / 256, k - 1)
  }

  function Store(m: Memory, at: Word64, v: Word64): Memory {
    (a: nat) => if at <= a < at + 8 then LittleByte(v, a - at) else m(a)
  }

  predicate Holds(m: Memory, at: Word64, v: Word64) {
    forall a: nat :: at <= a < at + 8 ==> m(a) == LittleByte(v, a - at)
  }

  // A relocation together with the object it belongs to.
  datatype Job = Job(owner: Object, rela: Rela)

  function Target(j: Job): Word64 { Add(j.owner.base, j.rela.offset) }

  predicate Covers(j: Job, a: nat) { Target(j) <= a < Target(j) + 8 }

  predicate Apart(i: Job, j: Job) { Target(i) + 8 <= Target(j) || Target(j) + 8 <= Target(i) }

  predicate Disjoint(jobs: seq<Job>) {
    forall i, j :: 0 <= i < j < |jobs| ==> Apart(jobs[i], jobs[j])
  }

  function JobsOf(o: Object, relas: seq<Rela>): (r: seq<Job>)
    ensures |r| == |relas| && forall i :: 0 <= i < |r| ==> r[i] == Job(o, relas[i])
  {
    seq(|relas|, i requires 0 <= i < |relas| => Job(o, relas[i]))
  }

  /** Both tables of every object, in load order. */
  function Jobs(objects: seq<Object>): seq<Job> {
    if objects == [] then []
    else JobsOf(objects[0], objects[0].rela) + JobsOf(objects[0], objects[0].jmprel) + Jobs(objects[1..])
  }

  predicate AllIndexed(jobs: seq<Job>) { forall j :: j in jobs ==> Indexed(j.owner, j.rela) }

  function Perform(scope: seq<Object>, m: Memory, jobs: seq<Job>): Outcome<Memory>
    requires AllShaped(scope) && AllIndexed(jobs)
    decreases |jobs|
  {
    if jobs == [] then Ok(m)
    else
      match Resolved(scope, jobs[0].owner, jobs[0].rela)
      case Die(why) => Die(why)
      case Ok(v) => Perform(scope, Store(m, Target(jobs[0]), v), jobs[1..])
  }

  predicate Resolvable(scope: seq<Object>, jobs: seq<Job>)
    requires AllShaped(scope) && AllIndexed(jobs)
  {
    forall j :: j in jobs ==> Resolved(scope, j.owner, j.rela).Ok?
  }

  /** Linking succeeds exactly when every relocation can be resolved. */
  lemma {:induction false} PerformSucceedsIff(scope: seq<Object>, m: Memory, jobs: seq<Job>)
    requires AllShaped(scope) && AllIndexed(jobs)
    ensures Perform(scope, m, jobs).Ok? <==> Resolvable(scope, jobs)
    decreases |jobs|
  {
    if jobs != [] {
      var r := Resolved(scope, jobs[0].owner, jobs[0].rela);
      if r.Ok? {
        PerformSucceedsIff(scope, Store(m, Target(jobs[0]), r.value), jobs[1..]);
        assert forall j :: j in jobs <==> j == jobs[0] || j in jobs[1..];
      }
    }
  }

  /** A byte no remaining relocation covers stays as it is. */
  lemma {:induction false} PerformKeeps(scope: seq<Object>, m: Memory, jobs: seq<Job>, a: nat)
    requires AllShaped(scope) && AllIndexed(jobs) && Perform(scope, m, jobs).Ok?
    requires forall j :: j in jobs ==> !Covers(j, a)
    ensures Perform(scope, m, jobs).value(a) == m(a)
    decreases |jobs|
  {
    if jobs != [] {
      var v := Resolved(scope, jobs[0].owner, jobs[0].rela).value;
      assert !Covers(jobs[0], a);
      PerformKeeps(scope, Store(m, Target(jobs[0]), v), jobs[1..], a);
    }
  }

  /** After linking, the word of every relocation holds its value. */
  lemma {:induction false} PerformStores(scope: seq<Object>, m: Memory, jobs: seq<Job>, k: nat)
    requires AllShaped(scope) && AllIndexed(jobs) && Perform(scope, m, jobs).Ok?
    requires Disjoint(jobs) && k < |jobs|
    ensures Resolved(scope, jobs[k].owner, jobs[k].rela).Ok?
    ensures Holds(Perform(scope, m, jobs).value, Target(jobs[k]), Resolved(scope, jobs[k].owner, jobs[k].rela).value)
    decreases |jobs|
  {
    var v := Resolved(scope, jobs[0].owner, jobs[0].rela).value;
    var stored := Store(m, Target(jobs[0]), v);
    assert Disjoint(jobs[1..]);
    if k > 0 {
      PerformStores(scope, stored, jobs[1..], k - 1);
    } else {
      var t := Target(jobs[0]);
      forall a: nat | t <= a < t + 8 ensures Perform(scope, m, jobs).value(a) == LittleByte(v, a - t) {
        forall j | j in jobs[1..] ensures !Covers(j, a) {
          var i :| 0 <= i < |jobs[1..]| && jobs[1..][i] == j;
          assert Apart(jobs[0], jobs[i + 1]);
        }
        PerformKeeps(scope, stored, jobs[1..], a);
      }
    }
  }

  function Pow256(n: nat): nat { if n == 0 then 1 else 256 * Pow256(n - 1) }

  /** A word is the bytes it is stored as. */
  lemma {:induction false} SameBytes(v: Word64, w: Word64, n: nat)
    requires v < Pow256(n) && w < Pow256(n) && forall k: nat :: k < n ==> LittleByte(v, k) == LittleByte(w, k)
    ensures v == w
  {
    if n > 0 {
      assert LittleByte(v, 0) == LittleByte(w, 0);
      forall k: nat | k < n - 1 ensures LittleByte(v / 256, k) == LittleByte(w / 256, k) {
        assert LittleByte(v, k + 1) == LittleByte(w, k + 1);
      }
      SameBytes(v / 256, w / 256, n - 1);
    }
  }

  /** The number the `n` bytes from an address on make, least significant first. */
  function Little(m: Memory, at: nat, n: nat): nat
    decreases n
  {
    if n == 0 then 0 else m(at) + 256 * Little(m, at + 1, n - 1)
  }

  lemma {:induction false} LittleIs(m: Memory, at: nat, v: Word64, n: nat)
    requires v < Pow256(n) && forall k: nat :: k < n ==> m(at + k) == LittleByte(v, k)
    ensures Little(m, at, n) == v
    decreases n
  {
    if n > 0 {
      assert m(at + 0) == LittleByte(v, 0);
      forall k: nat | k < n - 1 ensures m(at + 1 + k) == LittleByte(v / 256, k) {
        assert m(at + (k + 1)) == LittleByte(v, k + 1);
      }
      LittleIs(m, at + 1, v / 256, n - 1);
    }
  }

  lemma PowEight()
    ensures Pow256(8) == WRAP64
  {
    assert Pow256(2) == 65536 && Pow256(4) == 0x1_0000_0000 && Pow256(6) == 0x1_0000_0000_0000;
  }

  /** A stored word is read back from memory, least significant byte first. */
  lemma WordBack(m: Memory, at: Word64, v: Word64)
    ensures Little(Store(m, at, v), at, 8) == v
  {
    PowEight();
    LittleIs(Store(m, at, v), at, v, 8);
  }

  lemma HoldsOne(m: Memory, at: Word64, v: Word64, w: Word64)
    requires Holds(m, at, v)
    ensures Holds(m, at, w) <==> v == w
  {
    if Holds(m, at, w) {
      forall k: nat | k < 8 ensures LittleByte(v, k) == LittleByte(w, k) {
        assert m(at + k) == LittleByte(v, at + k - at) == LittleByte(w, at + k - at);
      }
      PowEight();
      SameBytes(v, w, 8);
    }
  }

  ghost predicate AsSpecified(objects: seq<Object>, m: Memory, j: Job)
    requires Indexed(j.owner, j.rela)
  {
    var meaning := Meaning(objects, j.owner, j.rela);
    meaning.Some? && Holds(m, Target(j), meaning.value)
  }

  /** After linking well-formed objects a target holds what the psABI asks for, unless it is one of those cases. */
  lemma LinkedAsSpecifiedIff(objects: seq<Object>, m: Memory, k: nat)
    requires AllWellFormed(objects) && AllIndexed(Jobs(objects)) && Disjoint(Jobs(objects)) && k < |Jobs(objects)|
    requires Perform(objects, m, Jobs(objects)).Ok?
    requires Indexed(Jobs(objects)[k].owner, Jobs(objects)[k].rela)
    ensures var j := Jobs(objects)[k];
            AsSpecified(objects, Perform(objects, m, Jobs(objects)).value, j) <==> !Misread(objects, j.owner, j.rela)
  {
    var j := Jobs(objects)[k];
    PerformStores(objects, m, Jobs(objects), k);
    ResolvedIffMeaning(objects, j.owner, j.rela);
    var v, meaning := Resolved(objects, j.owner, j.rela).value, Meaning(objects, j.owner, j.rela);
    if meaning.Some? {
      HoldsOne(Perform(objects, m, Jobs(objects)).value, Target(j), v, meaning.value);
    }
  }

  // ---- order ----

  lemma {:induction false} TwiceIn<T>(s: seq<T>, x: T) returns (i: nat, j: nat)
    requires multiset(s)[x] >= 2
    ensures i < j < |s| && s[i] == s[j] == x
  {
    assert s == [s[0]] + s[1..];
    if s[0] == x {
      i := 0;
      assert multiset(s[1..])[x] >= 1;
      assert x in s[1..];
      var k :| 0 <= k < |s[1..]| && s[1..][k] == x;
      j := k + 1;
    } else {
      i, j := TwiceIn(s[1..], x);
      i, j := i + 1, j + 1;
    }
  }

  lemma CountOfTwo<T>(s: seq<T>, i: nat, j: nat)
    requires i < j < |s| && s[i] == s[j]
    ensures multiset(s)[s[i]] >= 2
  {
    assert s == s[..i] + [s[i]] + s[i + 1..j] + [s[j]] + s[j + 1..];
  }

  lemma DisjointPermuted(jobs: seq<Job>, other: seq<Job>)
    requires Disjoint(jobs) && multiset(jobs) == multiset(other)
    ensures Disjoint(other)
  {
    forall i, j | 0 <= i < j < |other| ensures Apart(other[i], other[j]) {
      var x, y := other[i], other[j];
      if x == y {
        CountOfTwo(other, i, j);
        var k, l := TwiceIn(jobs, x);
        assert Apart(jobs[k], jobs[l]);
      } else {
        assert x in multiset(jobs) && y in multiset(jobs);
        var k :| 0 <= k < |jobs| && jobs[k] == x;
        var l :| 0 <= l < |jobs| && jobs[l] == y;
        assert k < l ==> Apart(jobs[k], jobs[l]);
        assert l < k ==> Apart(jobs[l], jobs[k]);
      }
    }
  }

  /** In whatever order disjoint relocations are performed, they all succeed or not alike and leave the same memory. */
  lemma OrderIndependent(scope: seq<Object>, m: Memory, jobs: seq<Job>, other: seq<Job>)
    requires AllShaped(scope) && AllIndexed(jobs) && AllIndexed(other)
    requires Disjoint(jobs) && multiset(jobs) == multiset(other)
    ensures Perform(scope, m, jobs).Ok? <==> Perform(scope, m, other).Ok?
    ensures Perform(scope, m, jobs).Ok? ==>
              forall a: nat :: Perform(scope, m, jobs).value(a) == Perform(scope, m, other).value(a)
  {
    SameMembers(jobs, other);
    PerformSucceedsIff(scope, m, jobs);
    PerformSucceedsIff(scope, m, other);
    DisjointPermuted(jobs, other);
    if Perform(scope, m, jobs).Ok? {
      forall a: nat ensures Perform(scope, m, jobs).value(a) == Perform(scope, m, other).value(a) {
        SameByte(scope, m, jobs, other, a);
      }
    }
  }

  lemma SameMembers<T>(s: seq<T>, t: seq<T>)
    requires multiset(s) == multiset(t)
    ensures forall x :: x in s <==> x in t
  {
    forall x ensures x in s <==> x in t {
      assert x in s <==> x in multiset(s);
      assert x in t <==> x in multiset(t);
    }
  }

  lemma SameByte(scope: seq<Object>, m: Memory, jobs: seq<Job>, other: seq<Job>, a: nat)
    requires AllShaped(scope) && AllIndexed(jobs) && AllIndexed(other)
    requires Disjoint(jobs) && Disjoint(other) && forall j :: j in jobs <==> j in other
    requires Perform(scope, m, jobs).Ok? && Perform(scope, m, other).Ok?
    ensures Perform(scope, m, jobs).value(a) == Perform(scope, m, other).value(a)
  {
    if exists k :: 0 <= k < |jobs| && Covers(jobs[k], a) {
      var k :| 0 <= k < |jobs| && Covers(jobs[k], a);
      assert jobs[k] in other;
      var l :| 0 <= l < |other| && other[l] == jobs[k];
      PerformStores(scope, m, jobs, k);
      PerformStores(scope, m, other, l);
    } else {
      PerformKeeps(scope, m, jobs, a);
      PerformKeeps(scope, m, other, a);
    }
  }

  // ---- the linker at work ----

  class Loader {
    var memory: Memory

    /** One table of one object. */
    method Apply(scope: seq<Object>, o: Object, relas: seq<Rela>) returns (died: Option<Failure>)
      requires AllShaped(scope) && (forall p :: p in scope ==> Finite(p)) && AllIndexed(JobsOf(o, relas))
      modifies this
      ensures Perform(scope, old(memory), JobsOf(o, relas)) ==
              if died.None? then Ok(memory) else Die(died.value)
    {
      ghost var jobs := JobsOf(o, relas);
      var i := 0;
      while i < |relas|
        invariant 0 <= i <= |relas| && AllIndexed(jobs[i..])
        invariant Perform(scope, memory, jobs[i..]) == Perform(scope, old(memory), jobs)
      {
        assert jobs[i..][1..] == jobs[i + 1..] && jobs[i] in jobs;
        var r := relas[i];
        var where := Add(o.base, r.offset);
        var v := Resolve(scope, o, r);
        if v.Die? {
          return Some(v.why);
        }
        memory := Store(memory, where, v.value);
        i := i + 1;
      }
      return None;
    }

    static method Resolve(scope: seq<Object>, o: Object, r: Rela) returns (v: Outcome<Word64>)
      requires AllShaped(scope) && (forall p :: p in scope ==> Finite(p)) && Indexed(o, r)
      ensures v == Resolved(scope, o, r)
    {
      if r.kind == R_RELATIVE {
        return Ok(Add(o.base, r.addend));
      }
      if !o.hasSymbols || !o.hasStrings {
        return Die(NoSymbols);
      }
      var symbol := o.symbols[r.index];
      var value := Lookup(scope, symbol.name);
      if value == 0 {
        if symbol.bind == WEAK {
          return Ok(0);
        }
        return Die(Undefined(symbol.name));
      }
      if r.kind == R_JUMP_SLOT || r.kind == R_GLOB_DAT {
        return Ok(value);
      }
      if r.kind == R_64 {
        return Ok(Add(value, r.addend));
      }
      return Die(if r.kind == R_COPY then CopyRelocation else UnknownType);
    }

    /** Links everything the loader table lists. */
    method Link(magic: bool, objects: seq<Object>) returns (died: Option<Failure>)
      requires AllShaped(objects) && (forall p :: p in objects ==> Finite(p)) && AllIndexed(Jobs(objects))
      modifies this
      ensures !magic || |objects| == 0 || |objects| > MAX_OBJECTS ==> died == Some(BadTable) && memory == old(memory)
      ensures magic && 1 <= |objects| <= MAX_OBJECTS ==>
                Perform(objects, old(memory), Jobs(objects)) == if died.None? then Ok(memory) else Die(died.value)
    {
      if !magic || |objects| == 0 || |objects| > MAX_OBJECTS {
        return Some(BadTable);
      }
      var i := 0;
      while i < |objects|
        invariant 0 <= i <= |objects| && AllIndexed(Jobs(objects[i..]))
        invariant Perform(objects, memory, Jobs(objects[i..])) == Perform(objects, old(memory), Jobs(objects))
      {
        assert objects[i..][1..] == objects[i + 1..];
        var first, second := JobsOf(objects[i], objects[i].rela), JobsOf(objects[i], objects[i].jmprel);
        ghost var rest := Jobs(objects[i + 1..]);
        PerformParts(objects, memory, first + second, rest);
        PerformParts(objects, memory, first, second);
        died := Apply(objects, objects[i], objects[i].rela);
        if died.Some? {
          return;
        }
        died := Apply(objects, objects[i], objects[i].jmprel);
        if died.Some? {
          return;
        }
        i := i + 1;
      }
      return None;
    }
  }

  lemma {:induction false} PerformParts(scope: seq<Object>, m: Memory, first: seq<Job>, rest: seq<Job>)
    requires AllShaped(scope) && AllIndexed(first + rest)
    ensures AllIndexed(first) && AllIndexed(rest)
    ensures Perform(scope, m, first + rest) ==
            match Perform(scope, m, first) case Die(why) => Die(why) case Ok(after) => Perform(scope, after, rest)
    decreases |first|
  {
    assert forall j :: j in first ==> j in first + rest;
    assert forall j :: j in rest ==> j in first + rest;
    if first == [] {
      assert first + rest == rest;
    } else {
      assert (first + rest)[1..] == first[1..] + rest;
      var r := Resolved(scope, first[0].owner, first[0].rela);
      if r.Ok? {
        PerformParts(scope, Store(m, Target(first[0]), r.value), first[1..], rest);
      }
    }
  }
}
