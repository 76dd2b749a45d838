/** The scene editor's list edits: the "Shapes" tab (add, duplicate, swap, erase, select,
    material drop, model move) and the "Materials" window (remove with re-seed and remap, new
    material, rename). The drawing is left out; every widget the user acts on is an input. */
module Editor {
  import opened Common
  import opened Shapes
  import opened Text
  import opened Materials
  import opened ModelFiles
  import Stl
  import Obj
  import Tracing

  // ---------------------------------------------------------------------------------------
  // Material references

  /** Every shape refers to an entry of a table of `n` materials. */
  predicate MaterialsBelow(shapes: seq<Shape>, n: nat)
  {
    forall k :: 0 <= k < |shapes| ==> 0 <= shapes[k].material < n
  }

  /** The reference `m` after entry `removed` of the table is erased: the removed entry's
      users fall back to entry 0, later entries move down by one. */
  function Remap(m: i32, removed: nat): (r: i32)
    ensures m == removed ==> r == 0
    ensures m != removed ==> (r < removed <==> m < removed)
  {
    if m == removed then 0 else if m > removed then m - 1 else m
  }

  /** A reference to any other entry still names the same material after the erase. */
  lemma RemapFollowsMaterial<T>(table: seq<T>, removed: nat, m: i32)
    requires removed < |table| && 0 <= m < |table| && m != removed
    ensures 0 <= Remap(m, removed) < |table| - 1
    ensures Without(table, removed)[Remap(m, removed)] == table[m]
  {
  }

  /** References to the remaining entries keep their order. */
  lemma RemapKeepsOrder(a: i32, b: i32, removed: nat)
    requires a != removed && b != removed && a < b
    ensures Remap(a, removed) < Remap(b, removed)
  {
  }

  /** Every shape with its material reference remapped (the "Fix ordering" loop). */
  function RemapAll(shapes: seq<Shape>, removed: nat): (r: seq<Shape>)
    ensures |r| == |shapes|
    ensures forall k :: 0 <= k < |r| ==> r[k] == shapes[k].(material := Remap(shapes[k].material, removed))
  {
    seq(|shapes|, k requires 0 <= k < |shapes| => shapes[k].(material := Remap(shapes[k].material, removed)))
  }

  /** "Avoid having no material": an emptied table gets a default entry. */
  function Reseeded(materials: seq<Material>): (r: seq<Material>)
    ensures |r| == if materials == [] then 1 else |materials|
    ensures materials != [] ==> r == materials
  {
    if materials == [] then [DefaultMaterial] else materials
  }

  /** The name of the re-seeded default. */
  function ReseededNames(names: seq<string>): (r: seq<string>)
    ensures |r| == if names == [] then 1 else |names|
    ensures names != [] ==> r == names
  {
    if names == [] then ["Material0"] else names
  }

  /** The name "New material" gives: "Material" followed by the current table length. */
  function NewMaterialName(len: nat): (r: string)
    ensures |r| == 8 + |IntToString(len)|
    ensures r[..8] == "Material" && r[8..] == IntToString(len)
  {
    "Material" + IntToString(len)
  }

  /** The re-seeded default carries the name "New material" would give an empty table. */
  lemma ReseedNameIsFirstNewName()
    ensures ReseededNames([]) == [NewMaterialName(0)]
  {
    assert DigitChar(0) == '0';
    assert IntToString(0) == NatToString(0) == "0";
    assert NewMaterialName(0) == "Material" + "0" == "Material0";
  }

  /** The material table and the shapes it is referred to by. */
  datatype Table = Table(materials: seq<Material>, names: seq<string>, shapes: seq<Shape>)
  {
    ghost predicate Valid()
    {
      |materials| == |names| && 1 <= |materials| && MaterialsBelow(shapes, |materials|)
    }
  }

  /** The "X" button of material `i`: erase the entry, re-seed an emptied table, remap. */
  function RemoveEntry(t: Table, i: nat): (r: Table)
    requires i < |t.materials| == |t.names|
    ensures |r.materials| == |r.names| >= 1 && |r.shapes| == |t.shapes|
  {
    Table(Reseeded(Without(t.materials, i)), ReseededNames(Without(t.names, i)), RemapAll(t.shapes, i))
  }

  /** Removing an entry keeps the table non-empty and parallel and every reference valid; a
      shape that used another entry still uses the same material, one that used the removed
      entry now uses entry 0. */
  lemma RemoveEntryKeepsReferences(t: Table, i: nat)
    requires t.Valid() && i < |t.materials|
    ensures RemoveEntry(t, i).Valid()
    ensures |RemoveEntry(t, i).materials| == if |t.materials| == 1 then 1 else |t.materials| - 1
    ensures forall k :: 0 <= k < |t.shapes| && t.shapes[k].material != i ==>
      RemoveEntry(t, i).materials[RemoveEntry(t, i).shapes[k].material] == t.materials[t.shapes[k].material]
    ensures forall k :: 0 <= k < |t.shapes| && t.shapes[k].material == i ==> RemoveEntry(t, i).shapes[k].material == 0
  {
    var r := RemoveEntry(t, i);
    forall k | 0 <= k < |t.shapes|
      ensures 0 <= r.shapes[k].material < |r.materials|
      ensures t.shapes[k].material != i ==> r.materials[r.shapes[k].material] == t.materials[t.shapes[k].material]
    {
      var m := t.shapes[k].material;
      if m != i {
        RemapFollowsMaterial(t.materials, i, m);
      }
    }
  }

  /** The outcome of the material window's row loop: the table, whether the scene must be
      re-rendered, how many rows were drawn and how many times a default was re-seeded. */
  datatype TableOutcome = TableOutcome(table: Table, rerender: bool, drawn: nat, reseeds: nat)

  /** Whether the "X" button of the `k`-th drawn row was clicked. */
  function Clicked(clicks: seq<bool>, k: nat): bool
  {
    k < |clicks| && clicks[k]
  }

  /** The material rows from row index `i` on, `k` rows having been drawn. A removal rewinds
      the index, so the entry that slides into slot `i` is drawn next. */
  function MaterialRows(t: Table, i: nat, k: nat, clicks: seq<bool>): (r: TableOutcome)
    requires |t.materials| == |t.names| && i <= |t.materials|
    ensures |r.table.materials| == |r.table.names|
    ensures |r.table.shapes| == |t.shapes|
    decreases (if k < |clicks| then |clicks| - k else 0), |t.materials| - i
  {
    if i == |t.materials| then TableOutcome(t, false, 0, 0)
    else if Clicked(clicks, k) then
      var rest := MaterialRows(RemoveEntry(t, i), i, k + 1, clicks);
      TableOutcome(rest.table, true, rest.drawn + 1, rest.reseeds + if |t.materials| == 1 then 1 else 0)
    else
      var rest := MaterialRows(t, i + 1, k + 1, clicks);
      rest.(drawn := rest.drawn + 1)
  }

  /** The rewind skips nothing: every entry from `i` on is drawn once, and a re-seeded
      default once more. */
  lemma {:induction false} MaterialRowsDrawEveryEntry(t: Table, i: nat, k: nat, clicks: seq<bool>)
    requires |t.materials| == |t.names| && i <= |t.materials|
    ensures MaterialRows(t, i, k, clicks).drawn == |t.materials| - i + MaterialRows(t, i, k, clicks).reseeds
    decreases (if k < |clicks| then |clicks| - k else 0), |t.materials| - i
  {
    if i == |t.materials| {
    } else if Clicked(clicks, k) {
      MaterialRowsDrawEveryEntry(RemoveEntry(t, i), i, k + 1, clicks);
    } else {
      MaterialRowsDrawEveryEntry(t, i + 1, k + 1, clicks);
    }
  }

  /** The material window keeps the table non-empty and every shape's reference valid. */
  lemma {:induction false} MaterialRowsKeepValid(t: Table, i: nat, k: nat, clicks: seq<bool>)
    requires t.Valid() && i <= |t.materials|
    ensures MaterialRows(t, i, k, clicks).table.Valid()
    decreases (if k < |clicks| then |clicks| - k else 0), |t.materials| - i
  {
    if i == |t.materials| {
    } else if Clicked(clicks, k) {
      RemoveEntryKeepsReferences(t, i);
      MaterialRowsKeepValid(RemoveEntry(t, i), i, k + 1, clicks);
    } else {
      MaterialRowsKeepValid(t, i + 1, k + 1, clicks);
    }
  }

  /** Without a click the table, the names and the shapes are left as they are. */
  lemma {:induction false} MaterialRowsUnclicked(t: Table, i: nat, k: nat, clicks: seq<bool>)
    requires |t.materials| == |t.names| && i <= |t.materials|
    requires forall n :: 0 <= n < |clicks| ==> !clicks[n]
    ensures MaterialRows(t, i, k, clicks) == TableOutcome(t, false, |t.materials| - i, 0)
    decreases |t.materials| - i
  {
    if i < |t.materials| {
      MaterialRowsUnclicked(t, i + 1, k + 1, clicks);
    }
  }

  /** The rename popup's buffer holds at most 127 characters of a name. */
  function Clip(name: string): (r: string)
    ensures |r| <= 127
    ensures |r| <= |name| && r == name[..|r|]
    ensures |name| <= 127 ==> r == name
  {
    if |name| <= 127 then name else name[..127]
  }

  // ---------------------------------------------------------------------------------------
  // The shape list

  /** The static `guizmo_selected`: -1 or a shape of the list. */
  predicate SelectionIn(selected: int, count: nat)
  {
    selected == -1 || 0 <= selected < count
  }

  /** `std::swap(shapes[i], shapes[j])`. */
  function Swap<T>(s: seq<T>, i: nat, j: nat): (r: seq<T>)
    requires i < |s| && j < |s|
    ensures |r| == |s| && r[i] == s[j] && r[j] == s[i]
    ensures forall k :: 0 <= k < |s| && k != i && k != j ==> r[k] == s[k]
  {
    s[i := s[j]][j := s[i]]
  }

  /** A swap only reorders the list. */
  lemma SwapPermutes<T>(s: seq<T>, i: nat, j: nat)
    requires i < |s| && j < |s|
    ensures multiset(Swap(s, i, j)) == multiset(s)
  {
    var t := s[i := s[j]];
    assert multiset(t) == multiset(s) - multiset{s[i]} + multiset{s[j]};
    assert multiset(t[j := s[i]]) == multiset(t) - multiset{t[j]} + multiset{s[i]};
  }

  /** Swapping the same pair twice restores the list. */
  lemma SwapTwice<T>(s: seq<T>, i: nat, j: nat)
    requires i < |s| && j < |s|
    ensures Swap(Swap(s, i, j), i, j) == s
  {
  }

  /** A model whose transform was edited, its bounding box recomputed for the new transform. */
  function Moved(m: Model, pool: seq<Triangle>, transform: Mat4, bounds: BoundingBoxFn): (r: Model)
    ensures r.triangleIndex == m.triangleIndex && r.numTriangles == m.numTriangles
    ensures r.transform == transform
    ensures (r.boundingMin, r.boundingMax) == bounds(pool, m.triangleIndex, m.numTriangles, transform)
  {
    var box := bounds(pool, m.triangleIndex, m.numTriangles, transform);
    m.(transform := transform, boundingMin := box.0, boundingMax := box.1)
  }

  /** Moving a model gives the model the constructor builds over the same range with the
      new transform: the bounding box never lags behind the transform. */
  lemma MovedIsRebuilt(m: Model, pool: seq<Triangle>, transform: Mat4, bounds: BoundingBoxFn)
    requires InPool(m, |pool|)
    ensures Moved(m, pool, transform, bounds) == NewModel(pool, m.triangleIndex, m.numTriangles, transform, bounds)
  {
  }

  /** What the user does on one drawn row of the shape list. */
  datatype RowAction =
    | Idle
      /** A "SHAPE" payload from row `j` dropped on this row. */
    | SwapWith(j: nat)
      /** A "MATERIAL" payload dropped on the row or on its material field, or a choice in
          its material combo. */
    | SetMaterial(m: i32)
      /** The model's gizmo or its position and size fields produced a new transform. */
    | MoveModel(transform: Mat4)
      /** The "X" button. */
    | Erase
      /** The "S" button. */
    | ToggleSelect

  /** The action on the `k`-th drawn row. */
  function ActionAt(actions: seq<RowAction>, k: nat): RowAction
  {
    if k < |actions| then actions[k] else Idle
  }

  /** Whether an action on row `i` asks for a re-render: a material change, an erase, or a
      move of a model. */
  predicate Rerenders(shapes: seq<Shape>, i: nat, a: RowAction)
    requires i < |shapes|
  {
    a.SetMaterial? || a.Erase? || (a.MoveModel? && shapes[i].payload.ModelPayload?)
  }

  /** The shape list and the selection. */
  datatype ListState = ListState(shapes: seq<Shape>, selected: int)

  /** The selection after shape `i` is erased, as the code does it: left as it was. */
  function SelectionAfterEraseAsWritten(selected: int, i: nat): (r: int)
    ensures r == selected
  {
    selected
  }

  /** An erase at the end of the list leaves the selection one past the end, where
      "Duplicate", still enabled, reads: with one selected shape, erasing it leaves
      selection 0 over an empty list. */
  lemma EraseAsWrittenLeavesStaleSelection(shapes: seq<Shape>)
    requires shapes != []
    ensures SelectionIn(|shapes| - 1, |shapes|)
    ensures var after := SelectionAfterEraseAsWritten(|shapes| - 1, |shapes| - 1);
      after == |Without(shapes, |shapes| - 1)| && !SelectionIn(after, |shapes| - 1)
  {
  }

  /** The selection after shape `i` is erased, corrected: an erased selection is cleared and
      a later one moves down with its shape. */
  function SelectionAfterErase(selected: int, i: nat): (r: int)
    ensures r == -1 <==> selected == -1 || selected == i
    ensures r != -1 ==> (r < i <==> selected < i)
  {
    if selected == i then -1 else if selected > i then selected - 1 else selected
  }

  /** The corrected selection stays within the shorter list and still names the shape it
      named before. */
  lemma EraseKeepsSelection(shapes: seq<Shape>, selected: int, i: nat)
    requires SelectionIn(selected, |shapes|) && i < |shapes|
    ensures SelectionIn(SelectionAfterErase(selected, i), |shapes| - 1)
    ensures selected != i && selected != -1 ==>
      Without(shapes, i)[SelectionAfterErase(selected, i)] == shapes[selected]
  {
  }

  /** One drawn row: the action's effect on the list and the selection. A swap with a row
      no longer in the list is dropped. */
  function Row(st: ListState, i: nat, a: RowAction, pool: seq<Triangle>, bounds: BoundingBoxFn): (r: ListState)
    requires i < |st.shapes|
    ensures a.Erase? ==> r.shapes == Without(st.shapes, i)
    ensures !a.Erase? ==> |r.shapes| == |st.shapes|
    ensures !a.Erase? && !a.ToggleSelect? ==> r.selected == st.selected
  {
    match a
    case Idle => st
    case SwapWith(j) => if j < |st.shapes| then st.(shapes := Swap(st.shapes, i, j)) else st
    case SetMaterial(m) => st.(shapes := st.shapes[i := st.shapes[i].(material := m)])
    case MoveModel(transform) =>
      var s := st.shapes[i];
      if s.payload.ModelPayload? then
        st.(shapes := st.shapes[i := s.(payload := ModelPayload(Moved(s.payload.model, pool, transform, bounds)))])
      else st
    case Erase => ListState(Without(st.shapes, i), SelectionAfterErase(st.selected, i))
    case ToggleSelect => st.(selected := if st.selected == i then -1 else i)
  }

  /** The outcome of the shape list loop. */
  datatype ListOutcome = ListOutcome(state: ListState, rerender: bool, drawn: nat)

  /** The shape rows from row index `i` on, `k` rows having been drawn. An erase rewinds the
      index, so the shape that slides into slot `i` is drawn next. */
  function ShapeRows(st: ListState, i: nat, k: nat, actions: seq<RowAction>, pool: seq<Triangle>,
                     bounds: BoundingBoxFn): (r: ListOutcome)
    requires i <= |st.shapes|
    ensures |r.state.shapes| <= |st.shapes|
    decreases |st.shapes| - i
  {
    if i == |st.shapes| then ListOutcome(st, false, 0)
    else
      var a := ActionAt(actions, k);
      var rest := ShapeRows(Row(st, i, a, pool, bounds), if a.Erase? then i else i + 1, k + 1, actions, pool, bounds);
      ListOutcome(rest.state, rest.rerender || Rerenders(st.shapes, i, a), rest.drawn + 1)
  }

  /** The rewind skips nothing: every shape from `i` on is drawn exactly once. */
  lemma {:induction false} ShapeRowsDrawEveryShape(st: ListState, i: nat, k: nat, actions: seq<RowAction>,
                                                   pool: seq<Triangle>, bounds: BoundingBoxFn)
    requires i <= |st.shapes|
    ensures ShapeRows(st, i, k, actions, pool, bounds).drawn == |st.shapes| - i
    decreases |st.shapes| - i
  {
    if i < |st.shapes| {
      var a := ActionAt(actions, k);
      ShapeRowsDrawEveryShape(Row(st, i, a, pool, bounds), if a.Erase? then i else i + 1, k + 1, actions, pool, bounds);
    }
  }

  /** Every material an action sets names an entry of a table of `n` materials. */
  predicate MaterialsSetBelow(actions: seq<RowAction>, n: nat)
  {
    forall k :: 0 <= k < |actions| && actions[k].SetMaterial? ==> 0 <= actions[k].m < n
  }

  /** The shape list keeps every material reference and the selection valid. */
  lemma {:induction false} ShapeRowsKeepValid(st: ListState, i: nat, k: nat, actions: seq<RowAction>,
                                              pool: seq<Triangle>, bounds: BoundingBoxFn, n: nat)
    requires i <= |st.shapes| && MaterialsBelow(st.shapes, n) && SelectionIn(st.selected, |st.shapes|)
    requires MaterialsSetBelow(actions, n)
    ensures MaterialsBelow(ShapeRows(st, i, k, actions, pool, bounds).state.shapes, n)
    ensures SelectionIn(ShapeRows(st, i, k, actions, pool, bounds).state.selected,
                        |ShapeRows(st, i, k, actions, pool, bounds).state.shapes|)
    decreases |st.shapes| - i
  {
    if i < |st.shapes| {
      var a := ActionAt(actions, k);
      var next := Row(st, i, a, pool, bounds);
      if a.Erase? {
        EraseKeepsSelection(st.shapes, st.selected, i);
      }
      assert MaterialsBelow(next.shapes, n);
      ShapeRowsKeepValid(next, if a.Erase? then i else i + 1, k + 1, actions, pool, bounds, n);
    }
  }

  /** Without erases, material changes and moves the list is only reordered. */
  lemma {:induction false} ShapeRowsPermute(st: ListState, i: nat, k: nat, actions: seq<RowAction>,
                                            pool: seq<Triangle>, bounds: BoundingBoxFn)
    requires i <= |st.shapes|
    requires forall n :: 0 <= n < |actions| ==> actions[n].Idle? || actions[n].SwapWith? || actions[n].ToggleSelect?
    ensures multiset(ShapeRows(st, i, k, actions, pool, bounds).state.shapes) == multiset(st.shapes)
    ensures !ShapeRows(st, i, k, actions, pool, bounds).rerender
    decreases |st.shapes| - i
  {
    if i < |st.shapes| {
      var a := ActionAt(actions, k);
      var next := Row(st, i, a, pool, bounds);
      var i1: nat, k1: nat := i + 1, k + 1;
      RowPermutes(st, i, a, pool, bounds);
      ShapeRowsPermute(next, i1, k1, actions, pool, bounds);
      var rest := ShapeRows(next, i1, k1, actions, pool, bounds);
      assert ShapeRows(st, i, k, actions, pool, bounds) == ListOutcome(rest.state, rest.rerender, rest.drawn + 1);
    }
  }

  /** One such row reorders the list at most, and asks for no re-render. */
  lemma RowPermutes(st: ListState, i: nat, a: RowAction, pool: seq<Triangle>, bounds: BoundingBoxFn)
    requires i < |st.shapes| && (a.Idle? || a.SwapWith? || a.ToggleSelect?)
    ensures var next := Row(st, i, a, pool, bounds);
      |next.shapes| == |st.shapes| && multiset(next.shapes) == multiset(st.shapes)
    ensures !Rerenders(st.shapes, i, a)
  {
    if a.SwapWith? && a.j < |st.shapes| {
      SwapPermutes(st.shapes, i, a.j);
    }
  }

  /** With no action the list, the selection and the re-render flag are left alone. */
  lemma {:induction false} ShapeRowsIdle(st: ListState, i: nat, k: nat, actions: seq<RowAction>,
                                         pool: seq<Triangle>, bounds: BoundingBoxFn)
    requires i <= |st.shapes|
    requires forall n :: 0 <= n < |actions| ==> actions[n].Idle?
    ensures ShapeRows(st, i, k, actions, pool, bounds) == ListOutcome(st, false, |st.shapes| - i)
    decreases |st.shapes| - i
  {
    if i < |st.shapes| {
      ShapeRowsIdle(st, i + 1, k + 1, actions, pool, bounds);
    }
  }

  // ---------------------------------------------------------------------------------------
  // The editor state

  /** Which loader the "Add model" popup uses. */
  datatype FileType = StlFile | ObjFile

  /** The load behind "Add to scene": the loader the file type selects, over the pool. On
      success the pair names exactly the appended triangles. */
  method LoadModel(filetype: FileType, stlFile: Option<seq<byte>>, objFile: Option<string>,
                   readFloat: Obj.FloatReader, normalize: Obj.Normalizer, triangles: seq<Triangle>)
    returns (result: LoadResult, pool: seq<Triangle>)
    ensures !result.Loaded? ==> pool == triangles
    ensures result.Loaded? ==>
      |pool| >= |triangles|
      && result.index == PairIndex(|triangles|) && result.count == PairIndex(|pool| - |triangles|)
      && result.index <= |triangles| && result.index + result.count <= |pool|
    ensures filetype == StlFile && result.Loaded? ==>
      stlFile.Some? && Stl.Parse(stlFile.value).Some?
      && pool == triangles + Stl.FacetTriangles(Stl.Parse(stlFile.value).value)
    ensures filetype == StlFile && !result.Loaded? ==> stlFile.None? || Stl.Parse(stlFile.value).None?
    ensures filetype == ObjFile && result.Loaded? ==>
      objFile.Some? && var l := Obj.Scan(Lines(objFile.value), readFloat, normalize);
      Obj.Triangles(l.faces, l.vertices, l.normals).Some?
      && pool == triangles + Obj.Triangles(l.faces, l.vertices, l.normals).value
    ensures filetype == ObjFile && !result.Loaded? ==>
      objFile.None? || var l := Obj.Scan(Lines(objFile.value), readFloat, normalize);
      Obj.Triangles(l.faces, l.vertices, l.normals).None?
  {
    if filetype == StlFile {
      result, pool := Stl.Load(stlFile, triangles);
    } else {
      result, pool := Obj.Load(objFile, triangles, readFloat, normalize);
    }
  }


  /** The scene the editor works on: the shape list, the shared triangle pool, the material
      table, and the editor's own statics (the selection and the popup's error flag). */
  class Scene {
    var shapes: seq<Shape>
    var triangles: seq<Triangle>
    var selected: int
    var loadError: bool
    const materials: MaterialHelper

    /** The table is never empty, every shape refers to one of its entries, and the
        selection is -1 or a shape. */
    ghost predicate Valid()
      reads this, materials
    {
      materials.Valid() && 1 <= |materials.materials| && MaterialsBelow(shapes, |materials.materials|)
      && SelectionIn(selected, |shapes|)
    }

    ghost function CurrentTable(): Table
      reads this, materials
    {
      Table(materials.materials, materials.names, shapes)
    }

    constructor (table: MaterialHelper, shapes: seq<Shape>, triangles: seq<Triangle>)
      requires table.Valid() && 1 <= |table.materials| && MaterialsBelow(shapes, |table.materials|)
      ensures Valid()
      ensures this.shapes == shapes && this.triangles == triangles && materials == table
      ensures selected == -1 && !loadError
    {
      this.shapes, this.triangles, materials := shapes, triangles, table;
      selected, loadError := -1, false;
    }

    /** "Duplicate": disabled without a selection; otherwise appends a copy of the selected
        shape and selects the copy. */
    method Duplicate()
      requires Valid()
      modifies this
      ensures Valid()
      ensures old(selected) == -1 ==> shapes == old(shapes) && selected == -1
      ensures old(selected) != -1 ==>
        shapes == old(shapes) + [old(shapes)[old(selected)]] && selected == |shapes| - 1
      ensures triangles == old(triangles) && loadError == old(loadError)
    {
      if selected != -1 {
        shapes := shapes + [shapes[selected]];
        selected := |shapes| - 1;
      }
    }

    /** Appends `shape` and selects it. */
    method AddSelected(shape: Shape)
      requires Valid() && shape.material == 0
      modifies this
      ensures Valid()
      ensures shapes == old(shapes) + [shape] && selected == old(|shapes|) && shapes[selected] == shape
      ensures triangles == old(triangles) && loadError == old(loadError)
    {
      selected := |shapes|;
      shapes := shapes + [shape];
    }

    /** "Add sphere": a unit sphere at the origin with material 0, selected. */
    method AddSphere() returns (rerender: bool)
      requires Valid()
      modifies this
      ensures Valid() && rerender
      ensures shapes == old(shapes) + [SphereShape(0, Sphere(Vec3Zero, FloatOne))]
      ensures selected == old(|shapes|)
      ensures triangles == old(triangles) && loadError == old(loadError)
    {
      AddSelected(SphereShape(0, Sphere(Vec3Zero, FloatOne)));
      rerender := true;
    }

    /** "Add plane": the horizontal plane through the origin with material 0, selected. */
    method AddPlane() returns (rerender: bool)
      requires Valid()
      modifies this
      ensures Valid() && rerender
      ensures shapes == old(shapes) + [PlaneShape(0, Plane(Vec3Zero, Vec3(FloatZero, FloatOne, FloatZero)))]
      ensures selected == old(|shapes|)
      ensures triangles == old(triangles) && loadError == old(loadError)
    {
      AddSelected(PlaneShape(0, Plane(Vec3Zero, Vec3(FloatZero, FloatOne, FloatZero))));
      rerender := true;
    }

    /** "Add box": the model `Box::model` gives for the origin and size 2, with material 0,
        selected. */
    method AddBox(box: Model) returns (rerender: bool)
      requires Valid()
      modifies this
      ensures Valid() && rerender
      ensures shapes == old(shapes) + [ModelShape(0, box)]
      ensures selected == old(|shapes|)
      ensures triangles == old(triangles) && loadError == old(loadError)
    {
      AddSelected(ModelShape(0, box));
      rerender := true;
    }

    /** "Add to scene" in the model popup: on a loaded file, a model over the loaded range
        with material 0, selected; otherwise the popup's error flag is raised and nothing is
        added. */
    method AddModel(filetype: FileType, stlFile: Option<seq<byte>>, objFile: Option<string>,
                    readFloat: Obj.FloatReader, normalize: Obj.Normalizer,
                    transform: Mat4, bounds: BoundingBoxFn) returns (rerender: bool)
      requires Valid()
      modifies this
      ensures Valid()
      ensures rerender == !loadError
      ensures loadError ==> shapes == old(shapes) && triangles == old(triangles) && selected == old(selected)
      ensures filetype == StlFile && !loadError ==>
        stlFile.Some? && Stl.Parse(stlFile.value).Some?
        && triangles == old(triangles) + Stl.FacetTriangles(Stl.Parse(stlFile.value).value)
      ensures filetype == StlFile && loadError ==> stlFile.None? || Stl.Parse(stlFile.value).None?
      ensures filetype == ObjFile && !loadError ==>
        objFile.Some? && var l := Obj.Scan(Lines(objFile.value), readFloat, normalize);
        Obj.Triangles(l.faces, l.vertices, l.normals).Some?
        && triangles == old(triangles) + Obj.Triangles(l.faces, l.vertices, l.normals).value
      ensures filetype == ObjFile && loadError ==>
        objFile.None? || var l := Obj.Scan(Lines(objFile.value), readFloat, normalize);
        Obj.Triangles(l.faces, l.vertices, l.normals).None?
      ensures !loadError ==>
        |triangles| >= |old(triangles)| && selected == old(|shapes|) && |shapes| == selected + 1 && shapes[..selected] == old(shapes)
        && shapes[selected].payload.ModelPayload? && var m := shapes[selected].payload.model;
        shapes[selected] == ModelShape(0, m) && m.triangleIndex == PairIndex(|old(triangles)|)
        && m.numTriangles == PairIndex(|triangles| - |old(triangles)|)
        && InPool(m, |triangles|) && m.transform == transform
        && (m.boundingMin, m.boundingMax) == bounds(triangles, m.triangleIndex, m.numTriangles, transform)
    {
      var result, pool := LoadModel(filetype, stlFile, objFile, readFloat, normalize, triangles);
      if result.Loaded? {
        loadError := false;
        triangles := pool;
        var m := NewModel(triangles, result.index, result.count, transform, bounds);
        AddSelected(ModelShape(0, m));
        rerender := true;
      } else {
        loadError := true;
        rerender := false;
      }
    }

    /** The shape list: each drawn row's action applied in turn; the loop index is rewound
        after an erase. */
    method ShapeList(actions: seq<RowAction>, bounds: BoundingBoxFn) returns (rerender: bool, ghost drawn: nat)
      requires Valid() && MaterialsSetBelow(actions, materials.Len())
      modifies this
      ensures Valid()
      ensures var r := ShapeRows(ListState(old(shapes), old(selected)), 0, 0, actions, old(triangles), bounds);
        ListState(shapes, selected) == r.state && rerender == r.rerender && drawn == r.drawn
      ensures triangles == old(triangles) && loadError == old(loadError)
    {
      ghost var goal := ShapeRows(ListState(shapes, selected), 0, 0, actions, triangles, bounds);
      ShapeRowsKeepValid(ListState(shapes, selected), 0, 0, actions, triangles, bounds, materials.Len());
      var i: nat := 0;
      var k: nat := 0;
      rerender := false;
      while i < |shapes|
        invariant 0 <= i <= |shapes|
        invariant materials.Valid() && 1 <= |materials.materials|
        invariant triangles == old(triangles) && loadError == old(loadError)
        invariant var r := ShapeRows(ListState(shapes, selected), i, k, actions, triangles, bounds);
          r.state == goal.state && (rerender || r.rerender) == goal.rerender && k + r.drawn == goal.drawn
        decreases |shapes| - i
      {
        var changed;
        i, changed := ShapeRow(i, ActionAt(actions, k), bounds);
        rerender := rerender || changed;
        k := k + 1;
      }
      drawn := k;
    }

    /** One row of the shape list: the action taken on row `i`, and the row index the loop
        goes on from (the same one after an erase, whose lambda rewinds the index). */
    method ShapeRow(i: nat, a: RowAction, bounds: BoundingBoxFn) returns (next: nat, changed: bool)
      requires i < |shapes|
      modifies this
      ensures ListState(shapes, selected) == Row(old(ListState(shapes, selected)), i, a, old(triangles), bounds)
      ensures next == (if a.Erase? then i else i + 1) && changed == Rerenders(old(shapes), i, a)
      ensures triangles == old(triangles) && loadError == old(loadError)
    {
      next, changed := i + 1, false;
      match a {
        case Idle =>
        case SwapWith(j) =>
          if j < |shapes| {
            var shape := shapes[i];
            shapes := shapes[i := shapes[j]];
            shapes := shapes[j := shape];
          }
        case SetMaterial(m) =>
          shapes := shapes[i := shapes[i].(material := m)];
          changed := true;
        case MoveModel(transform) =>
          var shape := shapes[i];
          if shape.payload.ModelPayload? {
            var moved := Moved(shape.payload.model, triangles, transform, bounds);
            shapes := shapes[i := shape.(payload := ModelPayload(moved))];
            changed := true;
          }
        case Erase =>
          shapes := shapes[..i] + shapes[i + 1..];
          if selected == i {
            selected := -1;
          } else if selected > i {
            selected := selected - 1;
          }
          next := i;
          changed := true;
        case ToggleSelect =>
          selected := if selected == i then -1 else i;
      }
    }

    /** The "Fix ordering" loop: every shape's reference remapped in place. */
    method RemapShapes(removed: nat)
      modifies this
      ensures shapes == RemapAll(old(shapes), removed)
      ensures triangles == old(triangles) && selected == old(selected) && loadError == old(loadError)
    {
      var k := 0;
      while k < |shapes|
        invariant 0 <= k <= |shapes| == |old(shapes)|
        invariant forall j :: 0 <= j < k ==> shapes[j] == RemapAll(old(shapes), removed)[j]
        invariant forall j :: k <= j < |shapes| ==> shapes[j] == old(shapes)[j]
        invariant triangles == old(triangles) && selected == old(selected) && loadError == old(loadError)
      {
        var shape := shapes[k];
        if shape.material == removed {
          shape := shape.(material := 0);
        } else if shape.material > removed {
          shape := shape.(material := shape.material - 1);
        }
        assert shape == RemapAll(old(shapes), removed)[k];
        shapes := shapes[k := shape];
        k := k + 1;
      }
    }

    /** The "X" button of material `i`: erase the entry, re-seed an emptied table with a
        default named "Material0", then remap every shape's reference. */
    method RemoveMaterial(i: nat)
      requires Valid() && i < materials.Len()
      modifies this, materials
      ensures Valid()
      ensures CurrentTable() == RemoveEntry(old(CurrentTable()), i)
      ensures triangles == old(triangles) && selected == old(selected) && loadError == old(loadError)
    {
      ghost var t := CurrentTable();
      materials.Remove(i);
      if materials.Len() == 0 {
        materials.Push(DefaultMaterial, "Material0");
      }
      RemapShapes(i);
      RemoveEntryKeepsReferences(t, i);
    }

    /** The material window: each drawn row's "X" button in turn, the loop index rewound
        after a removal, then "New material". */
    method MaterialWindow(clicks: seq<bool>, newMaterial: bool)
      returns (rerender: bool, ghost drawn: nat, ghost reseeds: nat)
      requires Valid()
      modifies this, materials
      ensures Valid()
      ensures var r := MaterialRows(old(CurrentTable()), 0, 0, clicks);
        shapes == r.table.shapes && rerender == r.rerender && drawn == r.drawn && reseeds == r.reseeds
        && materials.materials == r.table.materials + (if newMaterial then [DefaultMaterial] else [])
        && materials.names == r.table.names
           + (if newMaterial then [NewMaterialName(|r.table.materials|)] else [])
      ensures triangles == old(triangles) && selected == old(selected) && loadError == old(loadError)
    {
      ghost var goal := MaterialRows(CurrentTable(), 0, 0, clicks);
      var i: int := 0;
      var k: nat := 0;
      rerender, drawn, reseeds := false, 0, 0;
      while i < materials.Len()
        invariant 0 <= i <= materials.Len()
        invariant Valid()
        invariant triangles == old(triangles) && selected == old(selected) && loadError == old(loadError)
        invariant var r := MaterialRows(CurrentTable(), i, k, clicks);
          r.table == goal.table && (rerender || r.rerender) == goal.rerender
          && drawn + r.drawn == goal.drawn && reseeds + r.reseeds == goal.reseeds
        decreases (if k < |clicks| then |clicks| - k else 0), materials.Len() - i
      {
        if Clicked(clicks, k) {
          if materials.Len() == 1 {
            reseeds := reseeds + 1;
          }
          RemoveMaterial(i);
          i := i - 1;
          rerender := true;
        }
        i := i + 1;
        k := k + 1;
        drawn := drawn + 1;
      }
      if newMaterial {
        materials.Push(DefaultMaterial, NewMaterialName(materials.Len()));
      }
    }

    /** "Enter" in the rename popup: the entry being edited takes the typed name, cut to the
        popup's 127 characters. */
    method RenameMaterial(editing: nat, typed: string)
      requires Valid() && editing < materials.Len()
      modifies materials
      ensures Valid()
      ensures materials.names == old(materials.names)[editing := Clip(typed)]
      ensures materials.materials == old(materials.materials)
    {
      materials.names := materials.names[editing := Clip(typed)];
    }
  }
  // ---------------------------------------------------------------------------------------
  // The render tab

  /** An integer slider over `[lo, hi]` dragged towards `v`: the value it leaves. */
  function SliderValue(v: int, lo: int, hi: int): (r: int)
    requires lo <= hi
    ensures lo <= r <= hi
    ensures lo <= v <= hi ==> r == v
    ensures v < lo ==> r == lo
    ensures v > hi ==> r == hi
  {
    if v < lo then lo else if v > hi then hi else v
  }

  /** The "Render" tab: the sample and bounce sliders over `[1, 32]`, the "Rerender" button
      and the "Render" checkbox. A change of the bounce count asks for a re-render; a change
      of the sample count does not. `None` is a slider left alone; a click on the checkbox
      flips `render_raytracing`. */
  method RenderParameters(rd: Tracing.RenderData, samples: Option<int>, bounces: Option<int>, rerenderButton: bool,
                          raytracing: bool, renderClicked: bool)
    returns (rerender: bool, raytracingAfter: bool)
    modifies rd
    ensures rd.numSamples == if samples.Some? then SliderValue(samples.value, 1, 32) else old(rd.numSamples)
    ensures rd.numBounces == if bounces.Some? then SliderValue(bounces.value, 1, 32) else old(rd.numBounces)
    ensures 1 <= old(rd.numSamples) <= 32 || samples.Some? ==> 1 <= rd.numSamples <= 32
    ensures 1 <= old(rd.numBounces) <= 32 || bounces.Some? ==> 1 <= rd.numBounces <= 32
    ensures rerender == (rd.numBounces != old(rd.numBounces) || rerenderButton)
    ensures rd.width == old(rd.width) && rd.height == old(rd.height) && rd.tick == old(rd.tick)
    ensures rd.aspectRatio == old(rd.aspectRatio) && rd.fovScale == old(rd.fovScale) && rd.time == old(rd.time)
    ensures raytracingAfter == (raytracing != renderClicked)
  {
    if samples.Some? {
      rd.numSamples := SliderValue(samples.value, 1, 32);
    }
    rerender := false;
    if bounces.Some? {
      var b := SliderValue(bounces.value, 1, 32);
      rerender := b != rd.numBounces;
      rd.numBounces := b;
    }
    if rerenderButton {
      rerender := true;
    }
    raytracingAfter := if renderClicked then !raytracing else raytracing;
  }
}
