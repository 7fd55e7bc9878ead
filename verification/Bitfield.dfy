/** CO-RE bitfield access on byte memory, both byte orders
    (bpf/headers/bpf_core_read.h). Words are their bits, least significant first,
    so that shifts and masks are C's operators on unsigned long long. */
module Bitfield {
  import opened Words

  type Bits8 = b: seq<bool> | |b| == 8 witness seq(8, _ => false)
  type Bits64 = w: seq<bool> | |w| == 64 witness seq(64, _ => false)

  function Shl(w: Bits64, k: nat): Bits64 { seq(64, i requires 0 <= i < 64 => i >= k && w[i - k]) }
  function Shr(w: Bits64, k: nat): Bits64 { seq(64, i requires 0 <= i < 64 => i + k < 64 && w[i + k]) }

  /** Right shift of a signed long long. */
  function Sar(w: Bits64, k: nat): Bits64 {
    seq(64, i requires 0 <= i < 64 => if i + k < 64 then w[i + k] else w[63])
  }

  function And(v: Bits64, w: Bits64): Bits64 { seq(64, i requires 0 <= i < 64 => v[i] && w[i]) }
  function Or(v: Bits64, w: Bits64): Bits64 { seq(64, i requires 0 <= i < 64 => v[i] || w[i]) }
  function Not(w: Bits64): Bits64 { seq(64, i requires 0 <= i < 64 => !w[i]) }

  function Zero(): Bits64 { seq(64, i requires 0 <= i < 64 => false) }

  datatype Endian = Little | Big

  /** The six relocations of a field access. */
  datatype Field = Field(offset: nat, size: nat, lshift: nat, rshift: nat, signed: bool)
  {
    /** Number of bits in the field. */
    function Width(): int { 64 - rshift }
  }

  /** What the loader resolves the relocations to, for a field of a type the target has. */
  predicate Relocated(f: Field) {
    f.size in {1, 2, 4, 8} && 64 - 8 * f.size <= f.lshift <= f.rshift <= 63
  }

  predicate InBounds(mem: seq<Bits8>, f: Field) { f.offset + f.size <= |mem| }

  // ----- Storage units -----

  /** The byte that holds bits 8*j .. 8*j+7 of a unit. */
  function UnitByte(e: Endian, offset: nat, size: nat, j: nat): nat
    requires j < size
  {
    if e.Little? then offset + j else offset + (size - 1 - j)
  }

  /** A zero-extended load of `size` bytes. */
  function Load(e: Endian, mem: seq<Bits8>, offset: nat, size: nat): Bits64
    requires size <= 8 && offset + size <= |mem|
  {
    seq(64, i requires 0 <= i < 64 => i < 8 * size && mem[UnitByte(e, offset, size, i / 8)][i % 8])
  }

  function ByteOf(w: Bits64, j: nat): Bits8
    requires j < 8
  {
    w[8 * j..8 * j + 8]
  }

  /** A truncating store of `size` bytes. */
  function Stored(e: Endian, mem: seq<Bits8>, offset: nat, size: nat, w: Bits64): seq<Bits8>
    requires size <= 8 && offset + size <= |mem|
  {
    seq(|mem|, a requires 0 <= a < |mem| =>
      if offset <= a < offset + size
      then ByteOf(w, if e.Little? then a - offset else size - 1 - (a - offset))
      else mem[a])
  }

  // ----- The macros as functions -----

  function Extract(f: Field, val: Bits64): Bits64 {
    if f.signed then Sar(Shl(val, f.lshift), f.rshift) else Shr(Shl(val, f.lshift), f.rshift)
  }

  /** BPF_CORE_READ_BITFIELD */
  function Read(e: Endian, mem: seq<Bits8>, f: Field): Bits64
    requires InBounds(mem, f)
  {
    Extract(f, if f.size in {1, 2, 4, 8} then Load(e, mem, f.offset, f.size) else Zero())
  }

  function Mask(f: Field): Bits64 { Shr(Shl(Not(Zero()), f.rshift), f.lshift) }

  function Merge(f: Field, val: Bits64, nval: Bits64): Bits64
    requires f.lshift <= f.rshift
  {
    Or(And(val, Not(Mask(f))), And(Shl(nval, f.rshift - f.lshift), Mask(f)))
  }

  /** BPF_CORE_WRITE_BITFIELD */
  function Written(e: Endian, mem: seq<Bits8>, f: Field, nval: Bits64): seq<Bits8>
    requires InBounds(mem, f) && f.lshift <= f.rshift
  {
    if f.size in {1, 2, 4, 8}
    then Stored(e, mem, f.offset, f.size, Merge(f, Load(e, mem, f.offset, f.size), nval))
    else mem
  }

  // ----- The macros as code -----

  method ReadBitfield(e: Endian, mem: array<Bits8>, f: Field) returns (val: Bits64)
    requires InBounds(mem[..], f)
    ensures val == Read(e, mem[..], f)
  {
    var byteSize, lshift, rshift := f.size, f.lshift, f.rshift;
    val := Zero();
    if byteSize in {1, 2, 4, 8} {
      val := Load(e, mem[..], f.offset, byteSize);
    }
    val := Shl(val, lshift);
    if f.signed {
      val := Sar(val, rshift);
    } else {
      val := Shr(val, rshift);
    }
  }

  method WriteBitfield(e: Endian, mem: array<Bits8>, f: Field, nval: Bits64)
    requires InBounds(mem[..], f) && f.lshift <= f.rshift
    modifies mem
    ensures mem[..] == Written(e, old(mem[..]), f, nval)
  {
    var p, byteSize, lshift, rshift := f.offset, f.size, f.lshift, f.rshift;
    var rpad := rshift - lshift;
    if byteSize !in {1, 2, 4, 8} { return; }
    var val := Load(e, mem[..], p, byteSize);
    var mask := Shr(Shl(Not(Zero()), rshift), lshift);
    val := Or(And(val, Not(mask)), And(Shl(nval, rpad), mask));
    forall a | p <= a < p + byteSize {
      mem[a] := ByteOf(val, if e.Little? then a - p else byteSize - 1 - (a - p));
    }
    assert mem[..] == Stored(e, old(mem[..]), p, byteSize, val);
  }

  // ----- Where a field lives -----

  /** A bit of memory. */
  datatype Place = Place(address: nat, bit: nat)

  function At(mem: seq<Bits8>, p: Place): bool
    requires p.address < |mem| && p.bit < 8
  {
    mem[p.address][p.bit]
  }

  /** Bit i of the storage unit. */
  function UnitBit(e: Endian, f: Field, i: nat): Place
    requires i < 8 * f.size
  {
    Place(UnitByte(e, f.offset, f.size, i / 8), i % 8)
  }

  /** Bit j of the field. */
  function FieldBit(e: Endian, f: Field, j: nat): Place
    requires Relocated(f) && j < f.Width()
  {
    UnitBit(e, f, f.rshift - f.lshift + j)
  }

  ghost predicate Covers(e: Endian, f: Field, p: Place)
    requires Relocated(f)
  {
    exists j :: 0 <= j < f.Width() && FieldBit(e, f, j) == p
  }

  lemma ExtractBit(f: Field, val: Bits64, j: nat)
    requires Relocated(f) && j < 64
    ensures var lo := f.rshift - f.lshift;
            Extract(f, val)[j] == if j < f.Width() then val[lo + j] else f.signed && val[lo + f.Width() - 1]
  {
    assert f.lshift <= f.rshift <= 63;
    var v := Shl(val, f.lshift);
    assert v[63] == val[63 - f.lshift];
  }

  lemma LoadBit(e: Endian, mem: seq<Bits8>, f: Field, i: nat)
    requires f.size <= 8 && InBounds(mem, f) && i < 8 * f.size
    ensures Load(e, mem, f.offset, f.size)[i] == At(mem, UnitBit(e, f, i))
  {
  }

  /** Reading is fetching the field's own bits, then zero or sign extension. */
  lemma ReadBit(e: Endian, mem: seq<Bits8>, f: Field, j: nat)
    requires Relocated(f) && InBounds(mem, f) && j < 64
    ensures Read(e, mem, f)[j]
         == if j < f.Width() then At(mem, FieldBit(e, f, j)) else f.signed && At(mem, FieldBit(e, f, f.Width() - 1))
  {
    hide Load;
    hide Extract;
    hide UnitBit;
    hide At;
    var lo := f.rshift - f.lshift;
    ExtractBit(f, Load(e, mem, f.offset, f.size), j);
    LoadBit(e, mem, f, if j < f.Width() then lo + j else lo + f.Width() - 1);
  }

  lemma MaskBit(f: Field, i: nat)
    requires Relocated(f) && i < 64
    ensures Mask(f)[i] <==> f.rshift - f.lshift <= i < 64 - f.lshift
  {
  }

  lemma MergeBit(f: Field, val: Bits64, nval: Bits64, i: nat)
    requires Relocated(f) && i < 64
    ensures var lo := f.rshift - f.lshift;
            Merge(f, val, nval)[i] == if lo <= i < 64 - f.lshift then nval[i - lo] else val[i]
  {
    MaskBit(f, i);
  }

  lemma StoredBit(e: Endian, mem: seq<Bits8>, f: Field, w: Bits64, i: nat)
    requires f.size <= 8 && InBounds(mem, f) && i < 8 * f.size
    ensures At(Stored(e, mem, f.offset, f.size, w), UnitBit(e, f, i)) == w[i]
  {
    var j, b := i / 8, i % 8;
    assert i == 8 * j + b;
    assert Stored(e, mem, f.offset, f.size, w)[UnitByte(e, f.offset, f.size, j)] == ByteOf(w, j);
    assert ByteOf(w, j)[b] == w[8 * j + b];
  }

  /** Writing replaces the field's own bits ... */
  lemma WrittenField(e: Endian, mem: seq<Bits8>, f: Field, v: Bits64, j: nat)
    requires Relocated(f) && InBounds(mem, f) && j < f.Width()
    ensures At(Written(e, mem, f, v), FieldBit(e, f, j)) == v[j]
  {
    hide Load;
    hide Merge;
    hide Stored;
    hide UnitBit;
    hide At;
    var i := f.rshift - f.lshift + j;
    var val := Load(e, mem, f.offset, f.size);
    StoredBit(e, mem, f, Merge(f, val, v), i);
    MergeBit(f, val, v, i);
  }

  lemma StoredOutside(e: Endian, mem: seq<Bits8>, f: Field, w: Bits64, p: Place)
    requires f.size <= 8 && InBounds(mem, f) && p.address < |mem| && p.bit < 8
    requires !(f.offset <= p.address < f.offset + f.size)
    ensures At(Stored(e, mem, f.offset, f.size, w), p) == At(mem, p)
  {
  }

  /** Every bit of the storage unit has its number. */
  lemma UnitBitAt(e: Endian, f: Field, p: Place) returns (i: nat)
    requires f.offset <= p.address < f.offset + f.size && p.bit < 8
    ensures i < 8 * f.size && UnitBit(e, f, i) == p
  {
    var d := p.address - f.offset;
    i := 8 * (if e.Little? then d else f.size - 1 - d) + p.bit;
    assert i / 8 == if e.Little? then d else f.size - 1 - d;
  }

  /** ... and no other bit of memory, not even of the same storage unit. */
  lemma WrittenElsewhere(e: Endian, mem: seq<Bits8>, f: Field, v: Bits64, p: Place)
    requires Relocated(f) && InBounds(mem, f) && p.address < |mem| && p.bit < 8
    requires !Covers(e, f, p)
    ensures At(Written(e, mem, f, v), p) == At(mem, p)
  {
    hide Load;
    hide Merge;
    hide Stored;
    hide UnitBit;
    hide At;
    var val := Load(e, mem, f.offset, f.size);
    if f.offset <= p.address < f.offset + f.size {
      var i := UnitBitAt(e, f, p);
      var lo := f.rshift - f.lshift;
      assert lo <= i < 64 - f.lshift ==> FieldBit(e, f, i - lo) == p;
      StoredBit(e, mem, f, Merge(f, val, v), i);
      MergeBit(f, val, v, i);
      LoadBit(e, mem, f, i);
    } else {
      StoredOutside(e, mem, f, Merge(f, val, v), p);
    }
  }

  // ----- The lens laws -----

  lemma SameMemory(m: seq<Bits8>, n: seq<Bits8>)
    requires |m| == |n|
    requires forall a, b :: 0 <= a < |m| && 0 <= b < 8 ==> At(m, Place(a, b)) == At(n, Place(a, b))
    ensures m == n
  {
    forall a | 0 <= a < |m| ensures m[a] == n[a] {
      assert forall b :: 0 <= b < 8 ==> m[a][b] == At(m, Place(a, b)) && n[a][b] == At(n, Place(a, b));
    }
  }

  /** The low bits of v, extended the way the field is. */
  function Truncate(v: Bits64, width: nat, signed: bool): Bits64
    requires 0 < width <= 64
  {
    seq(64, j requires 0 <= j < 64 => if j < width then v[j] else signed && v[width - 1])
  }

  /** Reading after writing gives the value cut to the field's width. */
  lemma ReadAfterWrite(e: Endian, mem: seq<Bits8>, f: Field, v: Bits64)
    requires Relocated(f) && InBounds(mem, f)
    ensures Read(e, Written(e, mem, f, v), f) == Truncate(v, f.Width(), f.signed)
  {
    var after := Written(e, mem, f, v);
    forall j | 0 <= j < 64 ensures Read(e, after, f)[j] == Truncate(v, f.Width(), f.signed)[j] {
      ReadBit(e, after, f, j);
      WrittenField(e, mem, f, v, if j < f.Width() then j else f.Width() - 1);
    }
  }

  lemma WrittenAt(e: Endian, mem: seq<Bits8>, f: Field, v: Bits64, p: Place)
    requires Relocated(f) && InBounds(mem, f) && p.address < |mem| && p.bit < 8
    ensures Covers(e, f, p) ==>
              exists j :: 0 <= j < f.Width() && FieldBit(e, f, j) == p && At(Written(e, mem, f, v), p) == v[j]
    ensures !Covers(e, f, p) ==> At(Written(e, mem, f, v), p) == At(mem, p)
  {
    if Covers(e, f, p) {
      var j :| 0 <= j < f.Width() && FieldBit(e, f, j) == p;
      WrittenField(e, mem, f, v, j);
    } else {
      WrittenElsewhere(e, mem, f, v, p);
    }
  }

  /** Writing back what was read changes nothing. */
  lemma WriteBack(e: Endian, mem: seq<Bits8>, f: Field)
    requires Relocated(f) && InBounds(mem, f)
    ensures Written(e, mem, f, Read(e, mem, f)) == mem
  {
    var after := Written(e, mem, f, Read(e, mem, f));
    forall a, b | 0 <= a < |mem| && 0 <= b < 8 ensures At(after, Place(a, b)) == At(mem, Place(a, b)) {
      WrittenAt(e, mem, f, Read(e, mem, f), Place(a, b));
      if Covers(e, f, Place(a, b)) {
        var j :| 0 <= j < f.Width() && FieldBit(e, f, j) == Place(a, b) && At(after, Place(a, b)) == Read(e, mem, f)[j];
        ReadBit(e, mem, f, j);
      }
    }
    SameMemory(after, mem);
  }

  /** The last write wins. */
  lemma WriteTwice(e: Endian, mem: seq<Bits8>, f: Field, u: Bits64, v: Bits64)
    requires Relocated(f) && InBounds(mem, f)
    ensures Written(e, Written(e, mem, f, u), f, v) == Written(e, mem, f, v)
  {
    var once, twice := Written(e, mem, f, v), Written(e, Written(e, mem, f, u), f, v);
    forall a, b | 0 <= a < |mem| && 0 <= b < 8 ensures At(twice, Place(a, b)) == At(once, Place(a, b)) {
      if Covers(e, f, Place(a, b)) {
        var j :| 0 <= j < f.Width() && FieldBit(e, f, j) == Place(a, b);
        WrittenField(e, mem, f, v, j);
        WrittenField(e, Written(e, mem, f, u), f, v, j);
      } else {
        WrittenElsewhere(e, mem, f, v, Place(a, b));
        WrittenElsewhere(e, mem, f, u, Place(a, b));
        WrittenElsewhere(e, Written(e, mem, f, u), f, v, Place(a, b));
      }
    }
    SameMemory(twice, once);
  }

  /** No bit of memory belongs to both fields; their storage units may overlap. */
  ghost predicate Disjoint(e: Endian, f: Field, g: Field)
    requires Relocated(f) && Relocated(g)
  {
    forall j :: 0 <= j < g.Width() ==> !Covers(e, f, FieldBit(e, g, j))
  }

  /** A write never changes what is read from a bit-disjoint field. */
  lemma WriteLeavesOthers(e: Endian, mem: seq<Bits8>, f: Field, v: Bits64, g: Field)
    requires Relocated(f) && InBounds(mem, f) && Relocated(g) && InBounds(mem, g)
    requires Disjoint(e, f, g)
    ensures Read(e, Written(e, mem, f, v), g) == Read(e, mem, g)
  {
    var after := Written(e, mem, f, v);
    forall j | 0 <= j < 64 ensures Read(e, after, g)[j] == Read(e, mem, g)[j] {
      var i := if j < g.Width() then j else g.Width() - 1;
      ReadBit(e, after, g, j);
      ReadBit(e, mem, g, j);
      WrittenElsewhere(e, mem, f, v, FieldBit(e, g, i));
    }
  }

  // ----- Truncation as arithmetic -----

  /** The number a bit string stands for. */
  function NatOf(b: seq<bool>): nat { if b == [] then 0 else (if b[0] then 1 else 0) + 2 * NatOf(b[1..]) }

  /** The number a word stands for as a signed long long. */
  function IntOf(w: Bits64): int { if w[63] then NatOf(w) - Pow(2, 64) else NatOf(w) }

  lemma {:induction false} NatOfBound(b: seq<bool>)
    ensures NatOf(b) < Pow(2, |b|)
  {
    if b != [] { NatOfBound(b[1..]); }
  }

  function Fill(n: nat, b: bool): seq<bool> { seq(n, _ => b) }

  lemma {:induction false} NatOfFill(n: nat, b: bool)
    ensures NatOf(Fill(n, b)) == if b then Pow(2, n) - 1 else 0
  {
    if n > 0 {
      assert Fill(n, b)[1..] == Fill(n - 1, b);
      NatOfFill(n - 1, b);
    }
  }

  lemma {:induction false} NatOfLow(b: seq<bool>, n: nat)
    requires n <= |b|
    ensures NatOf(b) % Pow(2, n) == NatOf(b[..n])
    decreases n
  {
    if n == 0 {
      assert Pow(2, 0) == 1;
    } else {
      NatOfLow(b[1..], n - 1);
      assert b[..n][1..] == b[1..][..n - 1];
      EvenModulus(NatOf(b[1..]), Pow(2, n - 1), if b[0] then 1 else 0);
    }
  }

  lemma EvenModulus(x: nat, m: nat, bit: nat)
    requires m > 0 && bit < 2
    ensures (bit + 2 * x) % (2 * m) == bit + 2 * (x % m)
  {
    var q, r := x / m, x % m;
    assert bit + 2 * x == (2 * m) * q + (bit + 2 * r);
    ModUnique(bit + 2 * x, 2 * m, q, bit + 2 * r);
  }

  lemma MulAtLeast(d: int, k: int)
    requires d > 0 && k >= 1
    ensures d * k >= d
  {
    assert d * k == d + d * (k - 1);
  }

  lemma ModUnique(x: nat, d: nat, q: int, r: int)
    requires 0 <= r < d && x == d * q + r
    ensures x % d == r
  {
    var q', r' := x / d, x % d;
    assert x == d * q' + r' && 0 <= r' < d;
    Factored(d, q, q');
    if q > q' {
      MulAtLeast(d, q - q');
      assert false;
    } else if q < q' {
      MulAtLeast(d, q' - q);
      assert false;
    }
  }

  lemma Factored(d: int, q: int, q': int)
    ensures d * q - d * q' == d * (q - q')
    ensures d * q' - d * q == d * (q' - q)
  {
  }

  lemma {:induction false} NatOfExtended(low: seq<bool>, n: nat, b: bool)
    ensures NatOf(low + Fill(n, b)) == NatOf(low) + if b then Pow(2, |low| + n) - Pow(2, |low|) else 0
    decreases |low|
  {
    if low == [] {
      assert low + Fill(n, b) == Fill(n, b);
      NatOfFill(n, b);
    } else {
      assert (low + Fill(n, b))[1..] == low[1..] + Fill(n, b);
      NatOfExtended(low[1..], n, b);
    }
  }

  /** Unsigned: the value modulo 2^width. Signed: the number its low bits stand for in
      two's complement. */
  lemma TruncateValue(v: Bits64, width: nat, signed: bool)
    requires 0 < width <= 64
    ensures !signed ==> NatOf(Truncate(v, width, signed)) == NatOf(v) % Pow(2, width)
    ensures signed ==> (IntOf(Truncate(v, width, signed))
                        == NatOf(v) % Pow(2, width) - if v[width - 1] then Pow(2, width) else 0)
  {
    var low, top := v[..width], signed && v[width - 1];
    assert Truncate(v, width, signed) == low + Fill(64 - width, top);
    NatOfLow(v, width);
    NatOfExtended(low, 64 - width, top);
    NatOfBound(low);
  }

  // ----- The number a unit holds -----

  /** Bytes as a number, the first least significant, and the last least significant. */
  function LittleValue(bs: seq<Bits8>): nat { if bs == [] then 0 else NatOf(bs[0]) + 256 * LittleValue(bs[1..]) }
  function BigValue(bs: seq<Bits8>): nat
    decreases |bs|
  {
    if bs == [] then 0 else 256 * BigValue(bs[..|bs| - 1]) + NatOf(bs[|bs| - 1])
  }

  function Flat(bs: seq<Bits8>): seq<bool> { if bs == [] then [] else bs[0] + Flat(bs[1..]) }

  function Reversed(bs: seq<Bits8>): seq<Bits8> { seq(|bs|, j requires 0 <= j < |bs| => bs[|bs| - 1 - j]) }

  lemma {:induction false} FlatAt(bs: seq<Bits8>)
    ensures |Flat(bs)| == 8 * |bs|
    ensures forall i :: 0 <= i < 8 * |bs| ==> Flat(bs)[i] == bs[i / 8][i % 8]
  {
    if bs != [] {
      FlatAt(bs[1..]);
      forall i | 0 <= i < 8 * |bs| ensures Flat(bs)[i] == bs[i / 8][i % 8] {
        if i >= 8 { assert bs[1..][(i - 8) / 8] == bs[i / 8]; }
      }
    }
  }

  function Doubled(n: nat, x: nat): nat { if n == 0 then x else 2 * Doubled(n - 1, x) }

  lemma {:induction false} NatOfAppend(a: seq<bool>, b: seq<bool>)
    ensures NatOf(a + b) == NatOf(a) + Doubled(|a|, NatOf(b))
    decreases |a|
  {
    if a == [] {
      assert a + b == b;
    } else {
      assert (a + b)[1..] == a[1..] + b;
      NatOfAppend(a[1..], b);
    }
  }

  lemma {:induction false} FlatValue(bs: seq<Bits8>)
    ensures NatOf(Flat(bs)) == LittleValue(bs)
  {
    if bs != [] {
      FlatValue(bs[1..]);
      NatOfAppend(bs[0], Flat(bs[1..]));
      EightTimes(LittleValue(bs[1..]));
    }
  }

  lemma EightTimes(x: nat)
    ensures Doubled(8, x) == 256 * x
  {
    assert Doubled(1, x) == 2 * x;
    assert Doubled(3, x) == 8 * x;
    assert Doubled(5, x) == 32 * x;
    assert Doubled(7, x) == 128 * x;
  }

  lemma {:induction false} ReversedValue(bs: seq<Bits8>)
    ensures LittleValue(Reversed(bs)) == BigValue(bs)
    decreases |bs|
  {
    if bs != [] {
      assert Reversed(bs)[1..] == Reversed(bs[..|bs| - 1]);
      ReversedValue(bs[..|bs| - 1]);
    }
  }

  lemma LoadIsFlat(e: Endian, mem: seq<Bits8>, offset: nat, size: nat)
    requires size <= 8 && offset + size <= |mem|
    ensures var bytes := mem[offset..offset + size];
            Load(e, mem, offset, size) == Flat(if e.Little? then bytes else Reversed(bytes)) + Fill(64 - 8 * size, false)
  {
    var bytes := mem[offset..offset + size];
    var unit := if e.Little? then bytes else Reversed(bytes);
    FlatAt(unit);
    assert forall j :: 0 <= j < size ==> unit[j] == mem[UnitByte(e, offset, size, j)];
  }

  /** A load has C's value: the bytes of the unit as a number in the byte order of the machine. */
  lemma LoadValue(e: Endian, mem: seq<Bits8>, offset: nat, size: nat)
    requires size <= 8 && offset + size <= |mem|
    ensures var bytes := mem[offset..offset + size];
            NatOf(Load(e, mem, offset, size)) == match e case Little => LittleValue(bytes) case Big => BigValue(bytes)
  {
    var bytes := mem[offset..offset + size];
    var unit := if e.Little? then bytes else Reversed(bytes);
    LoadIsFlat(e, mem, offset, size);
    FlatAt(unit);
    NatOfExtended(Flat(unit), 64 - 8 * size, false);
    FlatValue(unit);
    ReversedValue(bytes);
  }

  // ----- The probed read -----

  function NoByte(): Bits8 { seq(8, i requires 0 <= i < 8 => false) }

  /** bpf_probe_read_kernel into the eight zeroed bytes of val, at the end that makes
      the unit low-order; a fault leaves zeros. */
  function Probed(e: Endian, mem: seq<Bits8>, f: Field, fault: bool): seq<Bits8>
    requires InBounds(mem, f) && f.size <= 8
  {
    seq(8, k requires 0 <= k < 8 => ProbedByte(e, mem, f, fault, k))
  }

  function ProbedByte(e: Endian, mem: seq<Bits8>, f: Field, fault: bool, k: nat): Bits8
    requires InBounds(mem, f) && f.size <= 8 && k < 8
  {
    if !fault && ProbeStart(e, f) <= k < ProbeStart(e, f) + f.size
    then mem[f.offset + (k - ProbeStart(e, f))]
    else NoByte()
  }

  /** Big-endian shifts the destination pointer so that the unit ends up low-order. */
  function ProbeStart(e: Endian, f: Field): nat
    requires f.size <= 8
  {
    if e.Little? then 0 else 8 - f.size
  }

  /** BPF_CORE_READ_BITFIELD_PROBED */
  function ReadProbed(e: Endian, mem: seq<Bits8>, f: Field, fault: bool): Bits64
    requires InBounds(mem, f) && f.size <= 8
  {
    Extract(f, Load(e, Probed(e, mem, f, fault), 0, 8))
  }

  lemma ProbedLoad(e: Endian, mem: seq<Bits8>, f: Field)
    requires InBounds(mem, f) && f.size <= 8
    ensures Load(e, Probed(e, mem, f, false), 0, 8) == Load(e, mem, f.offset, f.size)
  {
  }

  /** The probed read is the direct read, in either byte order. */
  lemma ProbedIsDirect(e: Endian, mem: seq<Bits8>, f: Field)
    requires Relocated(f) && InBounds(mem, f)
    ensures ReadProbed(e, mem, f, false) == Read(e, mem, f)
  {
    ProbedLoad(e, mem, f);
  }

  /** After a fault the field reads as zero. */
  lemma ProbedFault(e: Endian, mem: seq<Bits8>, f: Field)
    requires Relocated(f) && InBounds(mem, f)
    ensures ReadProbed(e, mem, f, true) == Zero()
  {
    assert Load(e, Probed(e, mem, f, true), 0, 8) == Zero();
    assert Shl(Zero(), f.lshift) == Zero();
  }
}
