/** The older, header-only revision of the scene editor: the same shape list and material
    window, without a selection. Its edits are the ones of `Editor`, and the contracts are
    stated with the same specification functions. Its models carry a position, a size and
    an orientation instead of a transform; here a move is a new transform either way. */
module LegacyEditor {
  import opened Common
  import opened Shapes
  import opened Materials
  import opened ModelFiles
  import opened Editor
  import opened Text
  import Stl
  import Obj

  /** The legacy row actions are those of `Editor` without the "S" button. */
  predicate NoSelection(actions: seq<RowAction>)
  {
    forall n :: 0 <= n < |actions| ==> !actions[n].ToggleSelect?
  }

  /** Without a selection the shape list loop never makes one. */
  lemma {:induction false} ShapeRowsNoSelection(st: ListState, i: nat, k: nat, actions: seq<RowAction>,
                                                pool: seq<Triangle>, bounds: BoundingBoxFn)
    requires i <= |st.shapes| && st.selected == -1 && NoSelection(actions)
    ensures ShapeRows(st, i, k, actions, pool, bounds).state.selected == -1
    decreases |st.shapes| - i
  {
    if i < |st.shapes| {
      var a := ActionAt(actions, k);
      ShapeRowsNoSelection(Row(st, i, a, pool, bounds), if a.Erase? then i else i + 1, k + 1, actions, pool, bounds);
    }
  }

  /** The scene as the older editor sees it: shapes, the triangle pool, the material table
      and the popup's error flag. */
  class LegacyScene {
    var shapes: seq<Shape>
    var triangles: seq<Triangle>
    var loadError: bool
    const materials: MaterialHelper

    ghost predicate Valid()
      reads this, materials
    {
      materials.Valid() && 1 <= |materials.materials| && MaterialsBelow(shapes, |materials.materials|)
    }

    ghost function CurrentTable(): Table
      reads this, materials
    {
      Table(materials.materials, materials.names, shapes)
    }

    constructor (table: MaterialHelper, shapes: seq<Shape>, triangles: seq<Triangle>)
      requires table.Valid() && 1 <= |table.materials| && MaterialsBelow(shapes, |table.materials|)
      ensures Valid()
      ensures this.shapes == shapes && this.triangles == triangles && materials == table && !loadError
    {
      this.shapes, this.triangles, materials := shapes, triangles, table;
      loadError := false;
    }

    /** "Add sphere": a unit sphere at the origin with material 0 is appended; the shapes
        before it are unchanged. */
    method AddSphere() returns (rerender: bool)
      requires Valid()
      modifies this
      ensures Valid() && rerender
      ensures shapes == old(shapes) + [SphereShape(0, Sphere(Vec3Zero, FloatOne))]
      ensures triangles == old(triangles) && loadError == old(loadError)
    {
      shapes := shapes + [SphereShape(0, Sphere(Vec3Zero, FloatOne))];
      rerender := true;
    }

    /** "Add box": the model `Box::model` gives for the origin and size 2, with material 0,
        is appended. */
    method AddBox(box: Model) returns (rerender: bool)
      requires Valid()
      modifies this
      ensures Valid() && rerender
      ensures shapes == old(shapes) + [ModelShape(0, box)]
      ensures triangles == old(triangles) && loadError == old(loadError)
    {
      shapes := shapes + [ModelShape(0, box)];
      rerender := true;
    }

    /** "Add to scene": as in `Editor`, but the new model is not selected. */
    method AddModel(filetype: FileType, stlFile: Option<seq<byte>>, objFile: Option<string>,
                    readFloat: Obj.FloatReader, normalize: Obj.Normalizer,
                    transform: Mat4, bounds: BoundingBoxFn) returns (rerender: bool)
      requires Valid()
      modifies this
      ensures Valid()
      ensures rerender == !loadError
      ensures loadError ==> shapes == old(shapes) && triangles == old(triangles)
      ensures !loadError ==>
        |triangles| >= |old(triangles)|
        && |shapes| == |old(shapes)| + 1 && shapes[..|old(shapes)|] == old(shapes)
        && shapes[|old(shapes)|].payload.ModelPayload? && var m := shapes[|old(shapes)|].payload.model;
        shapes[|old(shapes)|] == ModelShape(0, m) && m.triangleIndex == PairIndex(|old(triangles)|)
        && m.numTriangles == PairIndex(|triangles| - |old(triangles)|)
        && InPool(m, |triangles|) && m.transform == transform
        && (m.boundingMin, m.boundingMax) == bounds(triangles, m.triangleIndex, m.numTriangles, transform)
      ensures filetype == StlFile && !loadError ==>
        stlFile.Some? && Stl.Parse(stlFile.value).Some?
        && triangles == old(triangles) + Stl.FacetTriangles(Stl.Parse(stlFile.value).value)
      ensures filetype == StlFile && loadError ==> stlFile.None? || Stl.Parse(stlFile.value).None?
      ensures filetype == ObjFile && !loadError ==>
        objFile.Some? && var l := Obj.Scan(Lines(objFile.value), readFloat, normalize);
        Obj.Triangles(l.faces, l.vertices, l.normals).Some?
        && triangles == old(triangles) + Obj.Triangles(l.faces, l.vertices, l.normals).value
      ensures filetype == ObjFile && loadError ==>
        objFile.None? || var l := Obj.Scan(Lines(objFile.value), readFloat, normalize);
        Obj.Triangles(l.faces, l.vertices, l.normals).None?
    {
      ghost var before := triangles;
      var result, pool := LoadModel(filetype, stlFile, objFile, readFloat, normalize, triangles);
      if result.Loaded? {
        loadError := false;
        triangles := pool;
        var m := NewModel(triangles, result.index, result.count, transform, bounds);
        Append(ModelShape(0, m));
        rerender := true;
      } else {
        loadError := true;
        rerender := false;
      }
    }

    /** Appends `shape`. */
    method Append(shape: Shape)
      requires Valid() && shape.material == 0
      modifies this
      ensures Valid()
      ensures shapes == old(shapes) + [shape] && shapes[old(|shapes|)] == shape
      ensures triangles == old(triangles) && loadError == old(loadError)
    {
      shapes := shapes + [shape];
    }

    /** The shape list: swaps, material drops, model moves (bounding box recomputed) and
        erases, each drawn row in turn; the erase lambda rewinds the captured loop index. */
    method ShapeList(actions: seq<RowAction>, bounds: BoundingBoxFn) returns (rerender: bool)
      requires Valid() && MaterialsSetBelow(actions, materials.Len()) && NoSelection(actions)
      modifies this
      ensures Valid()
      ensures var r := ShapeRows(ListState(old(shapes), -1), 0, 0, actions, old(triangles), bounds);
        shapes == r.state.shapes && rerender == r.rerender
      ensures triangles == old(triangles) && loadError == old(loadError)
    {
      ghost var goal := ShapeRows(ListState(shapes, -1), 0, 0, actions, triangles, bounds);
      ShapeRowsKeepValid(ListState(shapes, -1), 0, 0, actions, triangles, bounds, materials.Len());
      var i: nat := 0;
      var k: nat := 0;
      rerender := false;
      while i < |shapes|
        invariant 0 <= i <= |shapes|
        invariant materials.Valid() && 1 <= |materials.materials|
        invariant triangles == old(triangles) && loadError == old(loadError)
        invariant var r := ShapeRows(ListState(shapes, -1), i, k, actions, triangles, bounds);
          r.state == goal.state && (rerender || r.rerender) == goal.rerender
        decreases |shapes| - i
      {
        var changed;
        i, changed := ShapeRow(i, ActionAt(actions, k), bounds);
        rerender := rerender || changed;
        k := k + 1;
      }
      ShapeRowsNoSelection(ListState(old(shapes), -1), 0, 0, actions, triangles, bounds);
    }

    /** One row of the shape list, as in `Editor`, without the "S" button. */
    method ShapeRow(i: nat, a: RowAction, bounds: BoundingBoxFn) returns (next: nat, changed: bool)
      requires i < |shapes| && !a.ToggleSelect?
      modifies this
      ensures ListState(shapes, -1) == Row(ListState(old(shapes), -1), i, a, old(triangles), bounds)
      ensures next == (if a.Erase? then i else i + 1) && changed == Rerenders(old(shapes), i, a)
      ensures triangles == old(triangles) && loadError == old(loadError)
    {
      next, changed := i + 1, false;
      match a {
        case Idle =>
        case SwapWith(j) =>
          if j < |shapes| {
            var shape := shapes[i];
            shapes := shapes[i := shapes[j]];
            shapes := shapes[j := shape];
          }
        case SetMaterial(m) =>
          shapes := shapes[i := shapes[i].(material := m)];
          changed := true;
        case MoveModel(transform) =>
          var shape := shapes[i];
          if shape.payload.ModelPayload? {
            var moved := Moved(shape.payload.model, triangles, transform, bounds);
            shapes := shapes[i := shape.(payload := ModelPayload(moved))];
            changed := true;
          }
        case Erase =>
          shapes := shapes[..i] + shapes[i + 1..];
          next := i;
          changed := true;
        case ToggleSelect =>
          assert false;
      }
    }

    /** The "Fix ordering" loop of the close-button lambda. */
    method RemapShapes(removed: nat)
      modifies this
      ensures shapes == RemapAll(old(shapes), removed)
      ensures triangles == old(triangles) && loadError == old(loadError)
    {
      var k := 0;
      while k < |shapes|
        invariant 0 <= k <= |shapes| == |old(shapes)|
        invariant forall j :: 0 <= j < k ==> shapes[j] == RemapAll(old(shapes), removed)[j]
        invariant forall j :: k <= j < |shapes| ==> shapes[j] == old(shapes)[j]
        invariant triangles == old(triangles) && loadError == old(loadError)
      {
        var shape := shapes[k];
        if shape.material == removed {
          shape := shape.(material := 0);
        } else if shape.material > removed {
          shape := shape.(material := shape.material - 1);
        }
        assert shape == RemapAll(old(shapes), removed)[k];
        shapes := shapes[k := shape];
        k := k + 1;
      }
    }

    /** The close-button lambda of material `i`: erase, re-seed "Material0" into an emptied
        table, remap. */
    method RemoveMaterial(i: nat)
      requires Valid() && i < materials.Len()
      modifies this, materials
      ensures Valid()
      ensures CurrentTable() == RemoveEntry(old(CurrentTable()), i)
      ensures triangles == old(triangles) && loadError == old(loadError)
    {
      ghost var t := CurrentTable();
      materials.Remove(i);
      if materials.Len() == 0 {
        materials.Push(DefaultMaterial, "Material0");
      }
      RemapShapes(i);
      RemoveEntryKeepsReferences(t, i);
    }

    /** The material window: each row's close button in turn, the captured index rewound
        after a removal, then "New material". */
    method MaterialWindow(clicks: seq<bool>, newMaterial: bool) returns (rerender: bool)
      requires Valid()
      modifies this, materials
      ensures Valid()
      ensures var r := MaterialRows(old(CurrentTable()), 0, 0, clicks);
        shapes == r.table.shapes && rerender == r.rerender
        && materials.materials == r.table.materials + (if newMaterial then [DefaultMaterial] else [])
        && materials.names == r.table.names
           + (if newMaterial then [NewMaterialName(|r.table.materials|)] else [])
      ensures triangles == old(triangles) && loadError == old(loadError)
    {
      ghost var goal := MaterialRows(CurrentTable(), 0, 0, clicks);
      var i: int := 0;
      var k: nat := 0;
      rerender := false;
      while i < materials.Len()
        invariant 0 <= i <= materials.Len()
        invariant Valid()
        invariant triangles == old(triangles) && loadError == old(loadError)
        invariant var r := MaterialRows(CurrentTable(), i, k, clicks);
          r.table == goal.table && (rerender || r.rerender) == goal.rerender
        decreases (if k < |clicks| then |clicks| - k else 0), materials.Len() - i
      {
        if Clicked(clicks, k) {
          RemoveMaterial(i);
          i := i - 1;
          rerender := true;
        }
        i := i + 1;
        k := k + 1;
      }
      if newMaterial {
        materials.Push(DefaultMaterial, NewMaterialName(materials.Len()));
      }
    }
  }
}
