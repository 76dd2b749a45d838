/** What the model loaders give back: `std::optional<ModelPair>`, the first index of the loaded
    triangles in the shared pool and their number, both as unsigned 32-bit values. */
module ModelFiles {
  import opened Common

  /** `nullopt` when the file cannot be opened; `Malformed` stands for the inputs on which the
      loaders read indeterminate memory (a truncated STL file, an OBJ index that names no element
      of its list). */
  datatype LoadResult = Loaded(index: u32, count: u32) | NotOpened | Malformed

  /** The `size_t` pool size converted to the pair's unsigned 32-bit first member: whole
      multiples of 2^32 are dropped, one at a time. */
  function PairIndex(poolSize: nat): (r: u32)
    ensures poolSize < 0x1_0000_0000 ==> r == poolSize
    decreases poolSize
  {
    if poolSize < 0x1_0000_0000 then poolSize else PairIndex(poolSize - 0x1_0000_0000)
  }

  /** The conversion is the remainder modulo 2^32. */
  lemma {:induction false} PairIndexIsRemainder(poolSize: nat)
    ensures PairIndex(poolSize) == poolSize % 0x1_0000_0000
    decreases poolSize
  {
    if poolSize >= 0x1_0000_0000 {
      PairIndexIsRemainder(poolSize - 0x1_0000_0000);
    }
  }
}
