/**
 * Three-component unsigned vectors of the render kernel's utility types: the
 * aligned `uint3` and the tightly packed `packed_uint3`, their component
 * access by index, and their constructors.
 */
module Uint3 {

  /** A 32-bit unsigned component. */
  newtype u32 = x: int | 0 <= x < 0x1_0000_0000

  datatype Uint3 = Uint3(x: u32, y: u32, z: u32)

  datatype PackedUint3 = PackedUint3(x: u32, y: u32, z: u32)

  /** Component `i` (0 for x, 1 for y, 2 for z); indices from 3 on are invalid. */
  function Get(v: Uint3, i: u32): (r: u32)
    requires i < 3
    ensures r == [v.x, v.y, v.z][i]
  {
    if i == 0 then v.x else if i == 1 then v.y else v.z
  }

  /** Writing `a` through the component reference at index `i`. */
  function Set(v: Uint3, i: u32, a: u32): (r: Uint3)
    requires i < 3
    ensures Get(r, i) == a
    ensures forall j: u32 :: j < 3 && j != i ==> Get(r, j) == Get(v, j)
  {
    if i == 0 then v.(x := a) else if i == 1 then v.(y := a) else v.(z := a)
  }

  function MakeUint3(x: u32, y: u32, z: u32): (r: Uint3)
    ensures Get(r, 0) == x && Get(r, 1) == y && Get(r, 2) == z
  {
    Uint3(x, y, z)
  }

  function PackedGet(v: PackedUint3, i: u32): (r: u32)
    requires i < 3
    ensures r == [v.x, v.y, v.z][i]
  {
    if i == 0 then v.x else if i == 1 then v.y else v.z
  }

  function PackedSet(v: PackedUint3, i: u32, a: u32): (r: PackedUint3)
    requires i < 3
    ensures PackedGet(r, i) == a
    ensures forall j: u32 :: j < 3 && j != i ==> PackedGet(r, j) == PackedGet(v, j)
  {
    if i == 0 then v.(x := a) else if i == 1 then v.(y := a) else v.(z := a)
  }

  function MakePackedUint3(x: u32, y: u32, z: u32): (r: PackedUint3)
    ensures PackedGet(r, 0) == x && PackedGet(r, 1) == y && PackedGet(r, 2) == z
  {
    PackedUint3(x, y, z)
  }

  /** The packed vector with the same components. */
  function Pack(v: Uint3): PackedUint3
  {
    PackedUint3(v.x, v.y, v.z)
  }

  /**
   * A vector is determined by its components, writing back a component read
   * changes nothing, and the packed layout has the same index-to-component
   * correspondence, for reads, writes and construction alike.
   */
  lemma ComponentLaws(v: Uint3, w: Uint3, i: u32, a: u32, x: u32, y: u32, z: u32)
    requires i < 3
    ensures (forall j: u32 :: j < 3 ==> Get(v, j) == Get(w, j)) ==> v == w
    ensures Set(v, i, Get(v, i)) == v
    ensures PackedGet(Pack(v), i) == Get(v, i)
    ensures Pack(Set(v, i, a)) == PackedSet(Pack(v), i, a)
    ensures Pack(MakeUint3(x, y, z)) == MakePackedUint3(x, y, z)
  {
    if forall j: u32 :: j < 3 ==> Get(v, j) == Get(w, j) {
      assert Get(v, 0) == Get(w, 0) && Get(v, 1) == Get(w, 1) && Get(v, 2) == Get(w, 2);
    }
  }
}
