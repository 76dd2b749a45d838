/** The material table of the editor: two parallel vectors, the materials and their
    display names, that are only ever erased from and appended to. */
module Materials {
  import opened Common
  import opened Shapes

  /** `Material`: the parameters are carried to the device and never interpreted here. */
  datatype Material = Material(smoothness: Float, metallic: Float, specular: Float,
                               emissionStrength: Float, transmittance: Float,
                               refractionIndex: Float, color: Vec3, emission: Vec3)

  /** `Material()`: white, no reflection or emission, opaque, refraction index 1. */
  const DefaultMaterial := Material(FloatZero, FloatZero, FloatZero, FloatZero, FloatZero,
                                    FloatOne, Vec3(FloatOne, FloatOne, FloatOne), Vec3Zero)

  /** The sequence without its element at `i`, the others in their order (`vector::erase`). */
  function Without<T>(s: seq<T>, i: nat): (r: seq<T>)
    requires i < |s|
    ensures |r| == |s| - 1
    ensures forall k :: 0 <= k < i ==> r[k] == s[k]
    ensures forall k :: i <= k < |r| ==> r[k] == s[k + 1]
  {
    s[..i] + s[i + 1..]
  }

  class MaterialHelper {
    var materials: seq<Material>
    var names: seq<string>

    /** The two vectors stay parallel. */
    ghost predicate Valid()
      reads this
    {
      |materials| == |names|
    }

    constructor ()
      ensures Valid()
      ensures materials == [] && names == []
    {
      materials, names := [], [];
    }

    /** `remove(index)`: erases entry `index` from both vectors. */
    method Remove(index: int)
      requires Valid() && 0 <= index < |materials|
      modifies this
      ensures Valid()
      ensures materials == Without(old(materials), index)
      ensures names == Without(old(names), index)
    {
      materials := Without(materials, index);
      names := Without(names, index);
    }

    /** `push(material, name)`: appends to both vectors; the new entry is at `LastIndex()`. */
    method Push(material: Material, name: string)
      requires Valid()
      modifies this
      ensures Valid()
      ensures materials == old(materials) + [material] && names == old(names) + [name]
      ensures Len() == old(Len()) + 1
      ensures LastIndex() == old(Len()) && materials[LastIndex()] == material && names[LastIndex()] == name
    {
      materials := materials + [material];
      names := names + [name];
    }

    /** `last_index()`: `materials.size() - 1`, which is -1 for an empty table. */
    function LastIndex(): int
      reads this
    {
      |materials| - 1
    }

    /** `len()`. */
    function Len(): nat
      reads this
    {
      |materials|
    }
  }
}
