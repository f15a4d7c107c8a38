/** Shard hashers: integer keys modulo the number of virtual shards, computed in machine arithmetic. */
module Hashing {
  import opened Arithmetic
  import opened Mesh

  /** 2 to the power `bits`, for the widths of Go's integer types. */
  function Size(bits: nat): (r: nat)
    requires bits in {8, 16, 32, 64}
    ensures r <= TWO_64
  {
    if bits == 8 then 0x100 else if bits == 16 then 0x1_0000 else if bits == 32 then 0x1_0000_0000 else TWO_64
  }

  datatype KeyType = KeyType(signed: bool, bits: nat)

  predicate Wide(t: KeyType) {
    t.bits in {8, 16, 32, 64}
  }

  predicate InRange(t: KeyType, x: int)
    requires Wide(t)
  {
    if t.signed then -(Size(t.bits) / 2) <= x < Size(t.bits) / 2 else 0 <= x < Size(t.bits)
  }

  /** Wraps a value into the range of a type. */
  function Wrap(t: KeyType, x: int): (r: int)
    requires Wide(t)
    ensures InRange(t, r)
    ensures InRange(t, x) ==> r == x
  {
    var low := x % Size(t.bits);
    if t.signed && low >= Size(t.bits) / 2 then low - Size(t.bits) else low
  }

  /** Converts to uint64, which sign-extends. */
  function ToUint64(x: int): (r: nat)
    ensures 0 <= x < TWO_64 ==> r == x
  {
    x % TWO_64
  }

  /** The magnitude of a negative key, computed without leaving the range of any type on the way. */
  function Magnitude(t: KeyType, key: int): (r: nat)
    requires Wide(t) && InRange(t, key) && key < 0
    ensures r == -key
  {
    var shifted := Wrap(t, key + 1);
    var negated := Wrap(t, -shifted);
    assert InRange(t, -shifted) && negated == -(key + 1);
    ToUint64(ToUint64(negated) + 1)
  }

  /** The slot of minus `magnitude`. */
  function NegativeSlot(magnitude: nat, count: nat): (r: nat)
    requires 0 < count < TWO_64
    ensures r < count && r == (0 - magnitude) % count
  {
    var remainder := magnitude % count;
    NegatedRemainder(magnitude, count);
    if remainder == 0 then 0 else ToUint64(count - remainder)
  }

  /** The modulo hasher is Euclidean modulo for every integer type and every key, the smallest one included. */
  function ModuloHash(t: KeyType, key: int, count: nat): (r: nat)
    requires Wide(t) && InRange(t, key) && 0 < count < TWO_64
    ensures r == key % count < count
  {
    if key < 0 then NegativeSlot(Magnitude(t, key), count) else ToUint64(key) % count
  }

  /** With a modulo hasher over as many slots as the mesh has virtual shards, routing never fails, and equal residues go
      to one replica set. */
  lemma ModuloAlwaysRoutes(mesh: Mesh, t: KeyType, key: int, other: int)
    requires Wide(t) && InRange(t, key) && InRange(t, other) && 0 < |mesh.virtualShards| < TWO_64
    ensures var count := |mesh.virtualShards|;
            && Resolve(mesh, ModuloHash(t, key, count)).Ok?
            && ((key - other) % count == 0 ==>
                  Resolve(mesh, ModuloHash(t, key, count)) == Resolve(mesh, ModuloHash(t, other, count)))
  {
    var count := |mesh.virtualShards|;
    if (key - other) % count == 0 {
      var k, q := (key - other) / count, other / count;
      assert key - other == k * count;
      assert other == q * count + other % count;
      assert key == (k + q) * count + other % count;
      Remainder(key, k + q, count, other % count);
    }
  }
}
