# Simple-Raytracer host side, modelled in Dafny

This project models the host side of Simple-Raytracer, an OpenCL ray tracer with an ImGui
editor. It covers:

- the scene records handed to the device: spheres, planes, triangle models and the tagged
  `Shape` union, together with their byte layout;
- the material table of the editor;
- the editor's shape list, "Add" buttons, "Add model" popup, material window and render tab,
  in both the current revision (`src/interface.cpp`) and the older header-only one
  (`include/interface.hpp`);
- the file readers and writer: binary STL, Wavefront OBJ and the PPM screenshot;
- the compute dispatcher `Tracer`: buffer (re)allocation, scene upload, kernel arguments, and
  the dispatch and read-back of a frame.

Floats are kept as their IEEE-754 bit patterns and never computed with. Everything that does
float arithmetic or talks to a device is a parameter of the model: float parsing,
`glm::normalize`, bounding boxes, `Box::model`, gizmo math and the kernel's shading.

Modules, one per file:

| module | file | source |
|---|---|---|
| `Common` | common.dfy | fixed-width integers, `Option`, floats as bit patterns |
| `Shapes` | shape.dfy | include/shape.hpp |
| `Layout` | layout.dfy | the in-memory layout of `Shape`, as `update_scene` copies it |
| `Materials` | materials.dfy | `MaterialHelper` of include/helper.hpp |
| `ModelFiles` | loading.dfy | `ModelPair`, the loaders' result |
| `Text` | text.dfy | `std::to_string`, `std::getline`, `istream` extraction |
| `Ppm` | ppm.dfy | `save_ppm` of src/parser.cpp |
| `Stl` | stl.dfy | `load_stl_model` of src/parser.cpp |
| `Obj` | obj.dfy | `load_obj_model` of src/parser.cpp |
| `Editor` | editor.dfy | src/interface.cpp |
| `LegacyEditor` | legacy_editor.dfy | include/interface.hpp |
| `Tracing` | tracer.dfy | src/tracer.cpp, include/tracer.hpp |

State that the source changes in place is modelled as classes:

- `MaterialHelper` is a class whose two vectors are `seq` fields.
- `Editor.Scene` and `LegacyEditor.LegacyScene` are classes. They hold the shape vector, the
  triangle pool and the editor's statics: the gizmo selection and the popup's error flag.
- `Tracing.RenderData` is a class. Its `camera_to_world` field is an `array`.
- `Tracing.Tracer` is a class. Its device memory is a map from buffer handles to buffers, and
  its command queue is the log of the commands enqueued on it.

The loaders receive the pool and return the new pool; `Editor.Scene.AddModel` stores it.

## Model

| member | source | states |
|---|---|---|
| Shapes.ZeroTriangle | include/shape.hpp:37-38 | `Triangle()` zeroes every normal and position |
| Shapes.FlatTriangle | include/shape.hpp:40-41 | a flat-shaded triangle: all three vertices carry the given normal, the positions in order |
| Shapes.ModelTriangles | include/shape.hpp:46-52 | a model stands for `num_triangles` pool entries starting at `triangle_index`, in order |
| Shapes.AppendKeepsModel | include/shape.hpp:46-52 | appending to the pool keeps every existing model in range and the triangles it stands for unchanged |
| Shapes.NewModel | include/shape.hpp:56-61 | `Model(triangles, index, count)` covers exactly that range of the pool, and its bounds are those computed from the pool |
| Shapes.ShapeTypeOfCode | include/shape.hpp:78-82 | the enum codes are 0, 1 and 2 exactly, and a code gives back its type |
| Shapes.ShapeTypeCodeRoundTrip | include/shape.hpp:78-82 | every shape type is recovered from its code |
| Shapes.SphereShape | include/shape.hpp:96-100 | the sphere constructor tags `SHAPE_SPHERE`, sets the material and makes the sphere the live member |
| Shapes.PlaneShape | include/shape.hpp:101-105 | the plane constructor tags `SHAPE_PLANE`, sets the material and makes the plane the live member |
| Shapes.ModelShape | include/shape.hpp:106-110 | the model constructor tags `SHAPE_MODEL`, sets the material and makes the model the live member |
| Shapes.WellTaggedIsConstructed | include/shape.hpp:84-111 | every shape whose tag names its live member is the result of exactly one of the three constructors |
| Common.U32BytesRoundTrip | src/parser.cpp:24-27 | a little-endian 32-bit value is read back from its four bytes |
| Common.U32FromBytes | src/parser.cpp:24-27 | a 32-bit field is read little-endian: its first byte is the low byte and its fourth the high byte |
| Layout.Pad | include/shape.hpp:15-17 | padding bytes are undefined |
| Layout.U32RoundTrip | include/shape.hpp:48-49 | a `cl_uint` field is decoded back from its bytes |
| Layout.I32RoundTrip | include/shape.hpp:85-86 | a `cl_int` field (the tag, the material) is decoded back from its bytes |
| Layout.FloatRoundTrip | include/shape.hpp:17 | a float field is decoded back from its bytes |
| Layout.Vec3RoundTrip | include/shape.hpp:16 | a `vec3` (12 bytes) is decoded back from its bytes |
| Layout.Vec4RoundTrip | include/shape.hpp:52 | a `vec4` column (16 bytes) is decoded back from its bytes |
| Layout.Mat4RoundTrip | include/shape.hpp:52 | a `mat4` (four columns, 64 bytes) is decoded back from its bytes |
| Layout.SphereRoundTrip | include/shape.hpp:15-20 | `Sphere` (position at 0, radius at 16, 32 bytes) is decoded back from its layout |
| Layout.PlaneRoundTrip | include/shape.hpp:22-27 | `Plane` (position at 0, normal at 16, 32 bytes) is decoded back from its layout |
| Layout.ModelRoundTrip | include/shape.hpp:47-53 | `Model` (indices at 0 and 4, bounds at 16 and 32, transform at 48, 112 bytes) is decoded back from its layout |
| Layout.EncodeShape | include/shape.hpp:84-94 | `sizeof(Shape)` is 128 |
| Layout.DecodeShape | include/shape.hpp:84-94 | a decoded record's tag always names its live member |
| Layout.ShapeFields | include/shape.hpp:84-94 | the tag is at offset 0, the material at 4 and the union at 16 |
| Layout.ShapeRoundTrip | include/shape.hpp:84-111 | every well-tagged shape is decoded back from its 128 bytes |
| Layout.EncodeShapes | src/tracer.cpp:50 | the shape vector is its records back to back, shape `k` at bytes `128k .. 128k + 128` |
| Layout.ShapesRoundTrip | src/tracer.cpp:50 | the device side decodes the uploaded vector back into the same shapes |
| Layout.DecodeShapes | src/tracer.cpp:50 | the device side reads one shape per 128 bytes |
| Layout.DecodeShapesSnoc | src/tracer.cpp:50 | a buffer whose last record decodes reads as the shapes before it followed by that shape |
| Layout.EncodeShapesSnoc | src/tracer.cpp:50 | the bytes of a vector with one more shape are the old bytes followed by that shape's record |
| Materials.Without | include/helper.hpp:40-43 | `erase(begin() + i)` keeps the elements before `i` and shifts those after it down by one |
| Materials.MaterialHelper.constructor | include/helper.hpp:37-38 | a new table is empty and parallel |
| Materials.MaterialHelper.Remove | include/helper.hpp:40-43 | entry `index` is erased from both vectors; they stay parallel |
| Materials.MaterialHelper.Push | include/helper.hpp:45-48 | both vectors grow by the one entry, which `last_index()` then names |
| Materials.MaterialHelper.LastIndex | include/helper.hpp:51-53 | `last_index()`: the index of the last entry, -1 for an empty table |
| Materials.MaterialHelper.Len | include/helper.hpp:55-57 | `len()`: the number of entries |
| ModelFiles.PairIndex | src/parser.cpp:40 | the pool size is converted to the pair's 32-bit index, unchanged when it fits |
| ModelFiles.PairIndexIsRemainder | src/parser.cpp:40 | the conversion is the remainder modulo 2^32 |
| Text.NatToString | src/parser.cpp:8 | `std::to_string` of a non-negative int: at least one character, starting with a digit |
| Text.NatToStringDigits | src/parser.cpp:8 | `std::to_string` of a non-negative int is all digits, with no leading zero |
| Text.NatToStringValue | src/parser.cpp:8 | the decimal value of `std::to_string(n)` is `n` |
| Text.IntToString | src/parser.cpp:8 | a negative int, and only a negative int, is written with a leading `-` |
| Text.IntToStringDigits | src/parser.cpp:8 | after the optional sign, `std::to_string` writes only digits |
| Text.ReadInt | src/parser.cpp:89 | `>>` into an int never moves back; it succeeds exactly when the stream is not failed afterwards, and a success consumes at least one character |
| Text.Get | src/parser.cpp:90 | `get()` gives the next character and moves past it, or fails the stream at the end |
| Text.Peek | src/parser.cpp:91 | `peek()` gives the next character without moving |
| Text.ReadIntOfString | src/parser.cpp:89 | a number written by `to_string` and not followed by a digit is read back as itself, and reading stops right after it |
| Text.ReadIntAt | src/parser.cpp:89 | the same, for a number inside a text after optional whitespace |
| Text.SkipSpacesTo | src/parser.cpp:89 | `>>` skips exactly the whitespace before a number |
| Text.DigitsEndOf | src/parser.cpp:89 | `>>` stops at the first non-digit |
| Text.SkipSpaces | src/parser.cpp:89 | skipping whitespace stops inside the text, at a character that is not whitespace or at the end |
| Text.DigitsEnd | src/parser.cpp:89 | reading digits stops inside the text, at a character that is not a digit or at the end |
| Text.IndexOf | src/parser.cpp:75 | `getline(stream, mode, ' ')` stops at the first space, or at the end of the line |
| Text.Lines | src/parser.cpp:72 | the lines `getline` yields contain no newline |
| Text.LinesJoin | src/parser.cpp:72 | for a file ending in a newline, the lines joined back with newlines give the file: nothing is lost or split |
| Ppm.Ascii | src/parser.cpp:7-8 | an ASCII header is written one byte per character |
| Ppm.Header | src/parser.cpp:7-8 | the header text `P6 <width> <height> 255\n` |
| Ppm.HeaderIsAscii | src/parser.cpp:7-8 | the header `P6 <width> <height> 255\n` is ASCII |
| Ppm.ReadHeader | src/parser.cpp:7-8 | a reader of the header reports width, height, maximum value and the offset of the pixel data, which lies inside the file |
| Ppm.HeaderRoundTrip | src/parser.cpp:7-8 | whatever follows it, the header is read back as the width and height written, maximum value 255, with the pixel data right after it |
| Ppm.DropAlpha | src/parser.cpp:10-14 | the colour data is three bytes per pixel: bytes 1 to 3 of each four-byte ARGB pixel, in order |
| Ppm.ColourBytes | src/parser.cpp:10-14 | the pixel loop writes exactly the colour data |
| Ppm.SavePpm | src/parser.cpp:4-15 | the file is the header followed by the colour data, and it has the length that implies |
| Stl.Vec3BytesRoundTrip | src/parser.cpp:30-33 | a float triple of a record is read back as written |
| Stl.FacetRoundTrip | src/parser.cpp:29-35 | a packed 50-byte record is read back as the facet written |
| Stl.FacetTriangle | src/parser.cpp:46-49 | corner `i` of the triangle is the record's `i`-th vertex, and all three corners carry the record's normal |
| Stl.Count | src/parser.cpp:24-27 | the facet count is the little-endian 32-bit word after the 80 header bytes |
| Stl.FacetOf | src/parser.cpp:43-44 | one packed 50-byte record: normal at bytes 0..12, the three corners at 12..48, the 16-bit little-endian attribute at 48..50 |
| Stl.FacetAt | src/parser.cpp:42-44 | record `i` is read from byte `84 + 50 * i`, right after the header and the `i` records before it |
| Stl.FacetTriangles | src/parser.cpp:42-50 | one flat triangle per facet, in order |
| Stl.Parse | src/parser.cpp:37-44 | a file is readable exactly when it holds the 84-byte header and the records it announces; facet `i` is record `i` |
| Stl.RecordsBytes | src/parser.cpp:29-35 | the records are 50 bytes each, facet `k` at bytes `50k .. 50k + 50` |
| Stl.Encode | src/parser.cpp:37-44 | a file of `n` facets is 84 + 50n bytes long |
| Stl.ParseEncode | src/parser.cpp:24-35 | a file written with any header and facets is parsed back as those facets |
| Stl.AppendFacets | src/parser.cpp:42-50 | the record loop appends, in order, the triangle of each announced record after the existing pool |
| Stl.Load | src/parser.cpp:17-53 | an unopened file gives `nullopt`; a readable one appends one triangle per facet and returns the old pool size and the count; a truncated one leaves the pool as it was |
| Obj.ReadI32 | src/parser.cpp:89 | `>>` into an `int` succeeds only with a value within 32 bits, and then reads exactly as the unbounded `>>` does |
| Obj.ReadCorner | src/parser.cpp:88-101 | `extract_index` sets the normal index only once it has read both slashes |
| Obj.ReadCornerChecked | src/parser.cpp:96-99 | with assertions on, the corner succeeds only when a space follows a normal index |
| Obj.ReadFace | src/parser.cpp:102-104 | the three `extract_index` calls of a face line, in a build without assertions, each starting where the one before it stopped |
| Obj.ReadFaceChecked | src/parser.cpp:96-104 | the face a build with assertions reads: the three checked corners in turn, each starting where the one before stopped, and `None` (the abort) as soon as one corner fails the space check |
| Obj.ReadCornerAfterSpace | src/parser.cpp:88-99 | a corner read from a space reads as the corner read just past it, which is where the checked `get()` leaves the stream |
| Obj.CheckedCornerAgrees | src/parser.cpp:88-99 | when the check passes, the checked corner is the unchecked one, and the next corner reads the same from either stream |
| Obj.CheckedFaceAgrees | src/parser.cpp:96-104 | a face the checked build accepts is the face the build without assertions reads |
| Obj.Mode | src/parser.cpp:75 | the mode is the part of the line before the first space |
| Obj.AfterMode | src/parser.cpp:75 | the rest of the line is read from just past that space |
| Obj.ReadVec3 | src/parser.cpp:79-85 | `stream >> x >> y >> z`: three floats read in turn by the float reader, each from where the one before it stopped |
| Obj.Classify | src/parser.cpp:76-109 | a line adds a face only for mode `f`, a position only for `v` and a normal only for `vn`; each of these three modes always adds something |
| Obj.FaceLineRoundTrip | src/parser.cpp:86-106 | a face line `f a//n b//n c//n` is read back as exactly those three corners |
| Obj.FaceReadBack | src/parser.cpp:102-104 | the three `extract_index` calls read the three corners of such a line, each starting where the one before it stopped |
| Obj.CornerBetween | src/parser.cpp:88-101 | a corner `v//n` is read back from its first character, or from the space before it, up to the space after it |
| Obj.ReadCornerAt | src/parser.cpp:88-101 | a written corner preceded by whitespace and not followed by a digit is read back as itself, and reading stops right after it |
| Obj.FaceCheckBack | src/parser.cpp:96-99 | with assertions on, no face line of written corners is read: the check on the last corner fails |
| Obj.FaceLineCheckAborts | src/parser.cpp:98 | with assertions on, every such face line fails the space check on its last corner |
| Obj.Scan | src/parser.cpp:72-110 | the first pass keeps at most one entry per line |
| Obj.ScanStep | src/parser.cpp:72-110 | one more line adds exactly what that line holds |
| Obj.ScanAppend | src/parser.cpp:72-110 | lines are read independently: the lists of two pieces of a file, concatenated, are the lists of the whole file |
| Obj.ReadLines | src/parser.cpp:72-110 | the first loop collects exactly the positions, normals and faces of the lines, in file order |
| Obj.AdjustAsWritten | src/parser.cpp:115-120 | as written, a negative index ends at or past `len + 1`; a positive one is made 0-based |
| Obj.AdjustAsWrittenMissesEnd | src/parser.cpp:115-120 | as written, every negative index that names an element is sent past the end of its list |
| Obj.Adjust | src/parser.cpp:115-120 | corrected: the result is in range exactly for the indices `1..len` and `-len..-1`, and `-1` is the last element |
| Obj.AdjustFindsElement | src/parser.cpp:115-120 | the corrected index finds exactly the element the OBJ index denotes |
| Obj.CornerVertex | src/parser.cpp:123-129 | a corner gives a vertex exactly when both of its indices denote elements (counted by the corrected `adjust`); that vertex has the denoted position and normal |
| Obj.Element | src/parser.cpp:115-129 | the element an OBJ index denotes: 1-based from the front, or counted back from the end when negative |
| Obj.FaceTriangle | src/parser.cpp:122-129 | a face gives a triangle exactly when all three corners do, vertex `i` from corner `i` |
| Obj.Triangles | src/parser.cpp:114-132 | the second pass succeeds exactly when every face gives a triangle, and then gives one per face, in order |
| Obj.AppendTriangles | src/parser.cpp:114-132 | the second loop reports whether every face gave a triangle, and then appends them, in order, after the existing pool |
| Obj.Load | src/parser.cpp:55-135 | an unopened file gives `nullopt`; otherwise the triangles of the scanned faces are appended and the old pool size and face count returned, and a face naming a missing element (by the corrected `adjust`) gives `Malformed` with the pool unchanged |
| Editor.Remap | src/interface.cpp:410-417 | a reference to the removed material falls back to entry 0; any other reference stays on the same side of the removed index |
| Editor.RemoveEntry | src/interface.cpp:402-421 | removing an entry keeps the two vectors parallel and non-empty and the shape list as long |
| Editor.MaterialRows | src/interface.cpp:389-421 | the material rows keep the two vectors parallel and the shape list as long |
| Editor.RemapFollowsMaterial | src/interface.cpp:410-417 | after an erase, a remapped reference names the same material as before |
| Editor.RemapKeepsOrder | src/interface.cpp:410-417 | the remap keeps the order of the references that were not removed |
| Editor.RemapAll | src/interface.cpp:411-417 | "Fix ordering" changes only the material of each shape, each by the remap |
| Editor.Reseeded | src/interface.cpp:405-408 | an emptied table gets exactly one material back; a non-empty one is unchanged |
| Editor.ReseededNames | src/interface.cpp:405-408 | an emptied table gets exactly one name back; a non-empty one is unchanged |
| Editor.NewMaterialName | src/interface.cpp:469-471 | a new material is called `Material` followed by the decimal table length |
| Editor.ReseedNameIsFirstNewName | src/interface.cpp:407 | the re-seeded name `Material0` is the name "New material" gives on an empty table |
| Editor.RemoveEntryKeepsReferences | src/interface.cpp:402-421 | removing a material keeps the table non-empty and parallel and every reference valid; shapes keep their material unless it was the removed one, which becomes entry 0 |
| Editor.MaterialRowsDrawEveryEntry | src/interface.cpp:389-418 | rewinding the index after a removal skips no row: every remaining entry and every re-seeded default is drawn |
| Editor.MaterialRowsKeepValid | src/interface.cpp:389-421 | the material window keeps the table non-empty and every shape's reference valid |
| Editor.MaterialRowsUnclicked | src/interface.cpp:389-467 | without a click nothing changes and nothing is re-rendered |
| Editor.Clip | src/interface.cpp:425-426 | the rename buffer keeps at most the first 127 characters of a name, and a short name entirely |
| Editor.Swap | src/interface.cpp:190-191 | `std::swap` exchanges the two rows and leaves the others |
| Editor.SwapPermutes | src/interface.cpp:190-191 | a swap permutes the shapes |
| Editor.SwapTwice | src/interface.cpp:190-191 | swapping the same two rows twice gives back the list |
| Editor.Moved | src/interface.cpp:98-101 | a moved model keeps its triangle range, takes the new transform and recomputes its bounds |
| Editor.MovedIsRebuilt | src/interface.cpp:98-101 | a moved model is the model newly built over the same range with the new transform |
| Editor.SelectionAfterEraseAsWritten | src/interface.cpp:211-215 | as written, the erase leaves the selection as it was |
| Editor.EraseAsWrittenLeavesStaleSelection | src/interface.cpp:211-215 | for every non-empty list, erasing the selected last shape leaves, as written, a selection equal to the new length: past the end, where "Duplicate" reads |
| Editor.SelectionAfterErase | src/interface.cpp:211-215 | corrected: the selection is cleared exactly when nothing or the erased shape was selected, and otherwise stays on the same side of the erased row |
| Editor.EraseKeepsSelection | src/interface.cpp:211-215 | corrected, the selection stays within the shorter list and names the shape it named before |
| Editor.Row | src/interface.cpp:179-218 | an erase removes exactly the row's shape; any other action keeps the length, and only the "S" button changes the selection |
| Editor.Rerenders | src/interface.cpp:196-244 | a row asks for a re-render for a material drop or combo change, an erase, or a move of a model; a swap and the "S" button do not |
| Editor.ShapeRows | src/interface.cpp:170-255 | the list loop never lengthens the shape list |
| Editor.ShapeRowsDrawEveryShape | src/interface.cpp:170-255 | rewinding the index after an erase skips no shape: every shape is drawn exactly once |
| Editor.ShapeRowsKeepValid | src/interface.cpp:170-255 | the shape list keeps every material reference below the table length and the selection valid |
| Editor.ShapeRowsPermute | src/interface.cpp:179-218 | swaps and selection changes only permute the shapes and never ask for a re-render |
| Editor.RowPermutes | src/interface.cpp:179-218 | one swap or selection change permutes the shapes and does not ask for a re-render |
| Editor.ShapeRowsIdle | src/interface.cpp:170-255 | rows left alone change nothing and ask for no re-render |
| Editor.Scene.constructor | src/interface.cpp:110 | a scene starts with no selection and no load error |
| Editor.Scene.Duplicate | src/interface.cpp:138-143 | "Duplicate" is disabled without a selection; otherwise it appends a copy of the selected shape and selects the copy |
| Editor.Scene.AddSelected | src/interface.cpp:145-161 | an added shape is appended and selected |
| Editor.Scene.AddSphere | src/interface.cpp:145-149 | "Add sphere" appends a unit sphere at the origin with material 0, selects it and asks for a re-render |
| Editor.Scene.AddPlane | src/interface.cpp:151-155 | "Add plane" appends the plane through the origin with normal +y, selects it and asks for a re-render |
| Editor.Scene.AddBox | src/interface.cpp:157-161 | "Add box" appends the box model with material 0, selects it and asks for a re-render |
| Editor.LoadModel | src/interface.cpp:278-283 | the file type picks the loader; on success the pool grows by the file's triangles (the STL facets or the OBJ faces, in order) and the pair is the old pool size and the number appended, both as 32-bit values |
| Editor.Scene.AddModel | src/interface.cpp:277-297 | a failed load sets the error flag and changes nothing else, and happens exactly when the file is missing or malformed; a successful one appends the STL or OBJ file's triangles to the pool and a selected model with material 0 whose index is the old pool size, whose count is the number appended, whose transform is the given one and whose bounds are computed over that range |
| Editor.Scene.ShapeRow | src/interface.cpp:179-218 | one row applies its action (swap, material drop, move, erase, selection toggle) as the row function states |
| Editor.Scene.ShapeList | src/interface.cpp:169-256 | the shape list loop leaves the list, the selection and the re-render flag the row functions give |
| Editor.Scene.RemapShapes | src/interface.cpp:411-417 | the "Fix ordering" loop remaps every shape's material |
| Editor.Scene.RemoveMaterial | src/interface.cpp:402-421 | a close button erases the entry, re-seeds an emptied table and remaps the shapes |
| Editor.Scene.MaterialWindow | src/interface.cpp:383-476 | the material window leaves the table the row functions give, plus a default entry for "New material" |
| Editor.Scene.RenameMaterial | src/interface.cpp:432-437 | "Enter" renames the edited entry to the clipped buffer and changes nothing else |
| Editor.SliderValue | src/interface.cpp:368-369 | an integer slider leaves a value within its range, the value itself when it is in range |
| Editor.RenderParameters | src/interface.cpp:365-381 | a moved slider sets its count to the value clamped to 1..32 and the other count is kept; a bounce change or the button asks for a re-render, a sample change does not; a click on "Render" flips the ray-tracing flag; size, tick, aspect ratio, field of view and time are unchanged |
| LegacyEditor.ShapeRowsNoSelection | include/interface.hpp:57-162 | the older shape list never makes a selection |
| LegacyEditor.LegacyScene.constructor | include/interface.hpp:52-55 | an older scene starts with no load error |
| LegacyEditor.LegacyScene.AddSphere | include/interface.hpp:164-167 | "Add sphere" appends the unit sphere and asks for a re-render |
| LegacyEditor.LegacyScene.AddBox | include/interface.hpp:169-172 | "Add box" appends the box model and asks for a re-render |
| LegacyEditor.LegacyScene.AddModel | include/interface.hpp:197-216 | as in the current editor: a failed load sets the error flag and happens exactly when the file is missing or malformed; a successful one appends the STL or OBJ file's triangles and a model with material 0 over exactly them (index the old pool size, count the number appended, the given transform, bounds over that range); the model is not selected |
| LegacyEditor.LegacyScene.Append | include/interface.hpp:164-216 | a pushed shape is appended and nothing else changes |
| LegacyEditor.LegacyScene.ShapeRow | include/interface.hpp:97-130 | one row of the older list: swap, material drop, move or erase |
| LegacyEditor.LegacyScene.ShapeList | include/interface.hpp:57-162 | the older shape list loop leaves the list and the re-render flag the row functions give |
| LegacyEditor.LegacyScene.RemapShapes | include/interface.hpp:324-330 | the older "Fix ordering" loop remaps every shape's material |
| LegacyEditor.LegacyScene.RemoveMaterial | include/interface.hpp:315-334 | the older close button erases, re-seeds and remaps |
| LegacyEditor.LegacyScene.MaterialWindow | include/interface.hpp:296-387 | the older material window leaves the table the row functions give, plus a default entry for "New material" |
| Tracing.Vec3ToCl | include/tracer.hpp:19 | `VEC3TOCL` copies x, y and z into the first three lanes |
| Tracing.Vec4ToCl | include/tracer.hpp:20 | `VEC4TOCL` copies the four components lane by lane |
| Tracing.ClRoundTrips | include/tracer.hpp:19-20 | the conversions to and from OpenCL vectors lose nothing |
| Tracing.RenderData.constructor | include/tracer.hpp:54-59 | a new block has the given size, four samples and ten bounces |
| Tracing.RenderData.SetMatrix | include/tracer.hpp:61-65 | `set_matrix` stores column `i` in `camera_to_world[i]` |
| Tracing.RenderData.Value | include/tracer.hpp:43-52 | the block handed to the kernel carries the size, samples and bounces of the fields |
| Tracing.WrapI32 | src/tracer.cpp:62 | the shape count is stored as a 32-bit `cl_int`: unchanged when it fits, otherwise congruent modulo 2^32 |
| Tracing.Allocate | src/tracer.cpp:7 | a new buffer gets a fresh handle and undefined bytes |
| Tracing.Rebuild | src/tracer.cpp:3-9 | `rebuild_if_too_small` keeps a buffer that is large enough; otherwise it replaces it with one of exactly the requested size, in the same context, and no other buffer changes |
| Tracing.Write | src/tracer.cpp:50 | a write replaces a prefix of the buffer with the data and leaves the rest and every other buffer |
| Tracing.Upload | src/tracer.cpp:47-51 | a non-empty shape list ends up as the prefix of a large enough shapes buffer; an empty one changes nothing |
| Tracing.ShapesOnDevice | src/tracer.cpp:47-51 | the kernel reads `count` shapes only from a buffer that holds `128 * count` bytes |
| Tracing.UploadReadsBack | src/tracer.cpp:47-51 | the kernel decodes the uploaded buffer back into the shapes |
| Tracing.UploadPrefix | src/tracer.cpp:47-51 | after an upload the buffer starts with the encoded shapes |
| Tracing.UploadIdempotent | src/tracer.cpp:47-51 | uploading the same shapes twice is the same as uploading them once |
| Tracing.UploadAll | src/tracer.cpp:45-66 | a sequence of `update_scene` calls keeps the memory valid and the shapes buffer live |
| Tracing.UploadsNeverShrink | src/tracer.cpp:3-9 | across updates the shapes buffer never shrinks and ends large enough for every list uploaded |
| Tracing.UploadAllSnoc | src/tracer.cpp:45-66 | a sequence of updates ending in one more list is that last upload applied to the earlier result |
| Tracing.LastUploadReadsBack | src/tracer.cpp:45-66 | after any sequence of updates the kernel reads the last non-empty list |
| Tracing.Traced | src/tracer.cpp:80 | a dispatch of `n` work items writes pixel `p` at bytes `4p .. 4p + 4` |
| Tracing.HostBytes | src/tracer.cpp:83 | a read-back gives exactly the device bytes |
| Tracing.Tracer.constructor | src/tracer.cpp:11-43 | a new dispatcher has an empty shapes buffer, an output buffer of `4 * width * height` undefined bytes, and both bound to slots 2 and 3 |
| Tracing.Tracer.RebuildIfTooSmall | src/tracer.cpp:3-9 | the method performs `Rebuild` on the dispatcher's memory |
| Tracing.Tracer.UpdateScene | src/tracer.cpp:45-66 | the shapes are uploaded, one write is queued when the list is not empty, the scene block gets the wrapped count and the light source, and slots 3 and 1 are rebound |
| Tracing.Tracer.KernelOutput | src/tracer.cpp:80 | a dispatch produces four bytes per work item |
| Tracing.Tracer.Render | src/tracer.cpp:68-84 | the frame block goes to slot 0, a kernel run and a read-back of `4 * width * height` bytes are queued, and the output starts with the traced pixels |
| Tracing.Construct | src/tracer.cpp:11-43 | a failed program build writes the build log and the error message to the error stream and ends construction; a successful one yields a fresh dispatcher |

## Left out

- Float arithmetic is not modelled. Floats are bit patterns, and everything computed with them
  is a parameter: float extraction from a stream, `glm::normalize`, `compute_bounding_box`,
  `Box::model`, the gizmo and matrix decomposition of `model_properties`, and the kernel's
  shading.
- `sphere_properties` and `plane_properties` are not modelled. They only drag floats and run
  the gizmo.
- `camera_parameters`, `scene_parameters`, `frame_time_window`, `Camera` and the ImGui drawing
  are not modelled. They hold no logic beyond float widgets; the screenshot button is
  `Ppm.SavePpm`.
- File and device I/O are left out. A file is its contents, or `None` when it cannot be
  opened, and the device is the memory map and queue log of `Tracing.Tracer`.
- Device selection, the program's source file and its compilation are left out. The build
  outcome is the `build` parameter of `Tracing.Construct`.
- `clear_canvas`, the averaging kernel and the render canvas declared in
  include/tracer.hpp have no definition in src/tracer.cpp. They are not modelled.
- include/tracer.hpp and src/tracer.cpp are different revisions. The header declares
  `update_scene(inputShape)` and `render(ticks_stopped, ...)`. The model follows the
  definitions in src/tracer.cpp, which take a light source and no tick count.
- `show_normals` is used by `render_parameters` but does not exist in this `RenderData`. The
  checkbox is not modelled.
- Tracing.Tracer.Render: requires the output vector and the output buffer to hold the
  frame's `4 * width * height` bytes. The source writes past both otherwise.
- Tracing.Tracer.Render: requires a non-negative width and height. The model does not cover
  the `int` overflow of `width * height`.
- Editor.SliderValue: a slider is modelled as the value it ends on, clamped to its range.
  Typed input (Ctrl+click) that ImGui leaves outside the range is not modelled.
- Editor.Row: an erase uses the corrected selection `Editor.SelectionAfterErase` (third row of
  Findings). As written, src/interface.cpp:211-215 leaves `guizmo_selected` unchanged, so after
  an erase it names the next shape, or lies past the end when the last shape was selected.
- Editor.Row: a swap with a row outside the list is dropped. In the source it is undefined
  behaviour; the drag-and-drop payload only ever carries a drawn row.
- Editor.ShapeRows: applies `Editor.Row`, so it inherits the corrected selection after an erase.
- Editor.ShapeRowsKeepValid: the selection half holds only with the corrected erase. As written,
  erasing a selected last shape leaves the selection past the end
  (`Editor.EraseAsWrittenLeavesStaleSelection`).
- Editor.Scene.ShapeList: keeps `Editor.Scene.Valid` only with the corrected erase. Its
  selection half is what makes `Editor.Scene.Duplicate` read an existing shape; as written,
  "Duplicate" can read past the end after an erase.
- Editor.Scene.ShapeRow: uses the corrected selection after an erase, as `Editor.Row` does.
- Editor.Scene.ShapeRow: ends the row at an erase. In src/interface.cpp the "S" button and the
  property widgets of the erased row still run on the shape that slid into its slot.
- LegacyEditor.LegacyScene.ShapeRow: ends the row at an erase. In include/interface.hpp:126-159
  the row goes on: when its tree node is open, the property widgets and the material `Combo`
  run on `shape`, a reference taken before the erase that may now dangle. This is not modelled.
- Editor.MaterialRows: ends a row at a removal. In src/interface.cpp:423-443 the row goes on to
  the "Edit" button and, when its tree node is open, the editor of `materials.materials[i]`
  with the rewound index. For row 0 that index is -1, outside the table. Neither is modelled.
- Editor.Scene.MaterialWindow: follows `Editor.MaterialRows`, so it ends a row at a removal in
  the same way.
- LegacyEditor.LegacyScene.MaterialWindow: ends a row at a removal in the same way. In
  include/interface.hpp:337-356 the row goes on to the "Edit" button and, when its node is
  open, to `materials.materials[i]` with the rewound index.
- Editor.Clip: counts characters. `std::memcpy` copies 127 bytes, which can cut a multi-byte
  UTF-8 character.
- The legacy editor's models carry a position, a size and an orientation instead of a
  transform. In `LegacyEditor`, a move is a new transform, as in the current editor.
- Stl.Load and Obj.Load: where the source reads indeterminate memory, the model returns
  `Malformed` with the pool unchanged. That covers a truncated STL file, and an OBJ corner whose
  index is unset or, counted by the corrected `adjust`, names no element. The source instead
  appends triangles built from whatever it read.
- Obj.Load: counts negative OBJ indices with the corrected `adjust` (first row of Findings). So
  `f -1//-1 -1//-1 -1//-1` over three vertices and three normals loads the last vertex and
  normal, where src/parser.cpp:115-120 as written reads one element past the end of each list.
- Obj.Load: models a build without assertions. Faces are read with `Obj.ReadFace`, because
  `assert(stream.get() == ' ')` at src/parser.cpp:98 is compiled out under `NDEBUG`. The checked
  build is `Obj.ReadFaceChecked`, which aborts on a line that ends right after its last normal
  index (second row of Findings);
  `Obj.CheckedFaceAgrees` shows that whenever its check passes it reads the same face.
- Obj.CornerVertex: counts indices with the corrected `adjust` as well. `Obj.AdjustAsWritten`
  is the index src/parser.cpp computes.
- Text.ReadInt: reads an unbounded integer; the 32-bit overflow of `>>` is applied afterwards
  by `Obj.ReadI32`. Hexadecimal and octal forms are not accepted, as for `>>` with default
  flags.
- Obj.Classify: float extraction from `v` and `vn` lines is the `readFloat` parameter, so a
  failed float extraction is whatever that parameter gives.

## Findings

| source | as written | input that shows it | evidently intended | confidence | as-written member | corrected member |
|---|---|---|---|---|---|---|
| src/parser.cpp:115-120 | a negative OBJ index becomes `len - index + 1`, then 1 is taken off | index `-1` with 3 vertices gives 4, past the end of the list | `len + index`, so that `-1` is the last element | high, not executed | Obj.AdjustAsWrittenMissesEnd | Obj.AdjustFindsElement |
| src/parser.cpp:98 | `assert(stream.get() == ' ')` after every normal index | the line `f 1//1 2//2 3//3`: the third corner ends the line, so `get()` fails the check | the check only between corners, or none at all | high, not executed | Obj.FaceLineCheckAborts | Obj.FaceLineRoundTrip |
| src/interface.cpp:211-215 | the "X" button erases shape `i` and leaves `guizmo_selected` unchanged | any non-empty list whose last shape is selected and then erased: the selection equals the new length, and "Duplicate" reads one past the end (with one shape, `shapes[0]` of an empty vector) | clear a selection on the erased shape and shift a later one down | medium, not executed | Editor.EraseAsWrittenLeavesStaleSelection | Editor.EraseKeepsSelection |
