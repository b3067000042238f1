# browser-game-engine core, modelled in Dafny

This project models the bookkeeping core of a small WebGL2 2D game engine
written in TypeScript, and proves properties of that model:

- **Vertex layouts** (`Layout`, `buffer_layout.dfy`). Each attribute type has a
  byte size and a component count. A layout gives every element the prefix sum
  of the sizes before it as its offset, and the total size as its stride.
- **Attribute-slot assignment** (`VertexArrays`, `vertex_array.dfy`). Adding a
  vertex buffer hands out consecutive attribute slots. A Mat3/Mat4 element takes
  one slot per row. The `enableVertexAttribArray`/`vertexAttribPointer` calls are
  kept as a log of `AttribPointer` records.
- **Entity/component registry** (`Ecs`, `registry.dfy`). It holds one storage per
  component name, a per-entity component counter and an id counter. The model
  keeps the JavaScript semantics of the counter array: a cell that was never
  written reads `undefined`, and `++`/`--` on it gives `NaN`.
- **Events** (`Events`, `events.dfy`). These are the event category and type
  enumerations, the event objects with their `handled` flag, and type-matched
  dispatch.
- **Input state** (`Inputs`, `input.dfy`). It keeps the typed, pressed and
  released key sets and the mouse position. Events update this state, and it is
  reset once per frame.
- **Texture format selection** (`Textures`, `texture.dfy`). This is the decision
  table from pixel-array type and channel count to the GL element type, the
  internal format and the data format. The texImage2D/texSubImage2D calls are
  modelled as records.
- **Material staging** (`Materials`, `material.dfy`). A material looks up the
  `ub_Material` block. An instance stages block contents in a float view of a
  byte buffer, with the RangeError behaviour of `Float32Array` and its `set`.

`Wrappers` (`wrappers.dfy`) defines `Option`, `Result` and `Outcome`. An
`Outcome` is success or a thrown error, for operations that return nothing.
`Gl` (`gl.dfy`) names the GL constants as enum symbols; `NONE` stands for the
literal 0.

Name mismatches between source files, and how the model resolves each:

- `VertexArray.ts:48,64` calls `layout.forEach` and reads `layout.stride`.
  `BufferLayout` only offers `getElements()`/`getStride()`. The model reads the
  layout's `elements` and `stride` fields, which are exactly what those getters
  return.
- `VertexArray.ts:61,73` read `element.componentCount`, which does not exist.
  `BufferElement` has `getComponentCount()`, and the model uses that.
- `Input.ts:25,31` and `MouseEvents.ts:24,45` use
  `EventType.MouseButtonTyped`/`MouseButtonRelease`. The enum spells these
  members `MouseBottonPress`/`MouseBottonRelease`. The model gives mouse-button
  events those enum members and keeps the enum's own spelling.

The `Input` class keeps its state in static fields; the model makes it one
object with the same four fields. `Shader.ts` in this version of the repository
has no uniform-block reflection. The model therefore takes the shader's
reflected block table as a given value.

## Model

| member | source | states |
|---|---|---|
| Layout.ShaderDataTypeToSize | src/Renderer/BufferLayout.ts:16-32 | the byte size is 0 exactly for None, and lies between the component count and 64 (a Mat4) |
| Layout.ComponentCount | src/Renderer/BufferLayout.ts:49-65 | the component count is 0 exactly for None and at most 4, a matrix counting one row |
| Layout.SizeIsScalarTimesShape | src/Renderer/BufferLayout.ts:16-65 | every size is scalar bytes (4, or 1 for Bool) × component count × (rows for a matrix); component count 0 only for None |
| Layout.NewBufferElement | src/Renderer/BufferLayout.ts:41-47 | a new element has offset 0, size from its type, and `normalized` false by default |
| Layout.WithOffsets | src/Renderer/BufferLayout.ts:76-83 | same length; only each element's offset changes; element i's offset is the total size of elements 0..i-1 |
| Layout.WithOffsetsIsLaidOut | src/Renderer/BufferLayout.ts:76-83 | the assigned offsets are prefix sums of the laid-out sequence itself, and laying out does not change the total size |
| Layout.OffsetsWithinStride | src/Renderer/BufferLayout.ts:79-83 | in a laid-out sequence offsets never decrease and offset + size ≤ stride for every element |
| Layout.BufferLayout.constructor | src/Renderer/BufferLayout.ts:73-84 | the loop leaves the elements laid out (`WithOffsets`) and the stride at the sum of all sizes (0 when empty) |
| Layout.BufferLayout.GetElements | src/Renderer/BufferLayout.ts:86 | returns the stored elements, whose offsets are prefix sums |
| Layout.BufferLayout.GetStride | src/Renderer/BufferLayout.ts:87 | the stride is the total size and bounds every element's end |
| VertexArrays.ShaderDataTypeToWebGLType | src/Renderer/VertexArray.ts:11-27 | the GL type is one of FLOAT, INT, BOOL and 0, and 0 exactly for None |
| VertexArrays.WebGLTypeClasses | src/Renderer/VertexArray.ts:11-27 | FLOAT exactly for float vectors and matrices, INT exactly for int vectors, BOOL exactly for Bool, 0 exactly for None |
| VertexArrays.MatrixRowAt | src/Renderer/VertexArray.ts:71-86 | matrix row i (1..c) is at slot first+i-1 with c components, the element's GL type and normalized flag, the stride, and offset `offset - c*4*i` |
| VertexArrays.ElementRecordsSlots | src/Renderer/VertexArray.ts:49-86 | an element's calls take exactly its slots (c for a matrix, 1 for another type, 0 for None), numbered from the current counter, with its component count, GL type, normalized flag and the layout stride; a non-matrix element's call carries the element's own offset |
| VertexArrays.RecordsSlots | src/Renderer/VertexArray.ts:47-88 | the calls of the first j elements take exactly their slots, numbered consecutively from the starting counter, all with the layout stride |
| VertexArrays.RecordsOfPrefix | src/Renderer/VertexArray.ts:48-88 | the calls of a shorter prefix of the layout are a prefix of the calls of a longer one |
| VertexArrays.RecordsOfElement | src/Renderer/VertexArray.ts:48-88 | element j's calls sit in the layout's calls right after those of elements 0..j-1, at its own slots |
| VertexArrays.MatrixRowsPrecedeElement | src/Renderer/VertexArray.ts:71-86 | with the row offset formula every matrix row's offset lies below the element's own offset, and row i of a c-component matrix is negative exactly when the element's offset is below c·4·i (so a matrix at offset 0 gets only negative offsets) |
| VertexArrays.EnableElement | src/Renderer/VertexArray.ts:49-87 | one element's step raises the counter by its slot count and makes exactly its calls |
| VertexArrays.EnableAttributes | src/Renderer/VertexArray.ts:47-88 | the walk over the layout raises the counter by the layout's slot count and makes exactly the layout's calls |
| VertexArrays.VertexBuffer.constructor | src/Renderer/VertexBuffer.ts:23 | a new vertex buffer carries a fresh empty layout with stride 0 |
| VertexArrays.VertexBuffer.SetLayout | src/Renderer/VertexBuffer.ts:33 | the layout is replaced |
| VertexArrays.VertexArray.constructor | src/Renderer/VertexArray.ts:36-41 | no vertex buffers, slot counter 0, no index buffer, empty call log |
| VertexArrays.VertexArray.AddVertexBuffer | src/Renderer/VertexArray.ts:43-91 | the buffer is appended after the earlier ones; the counter rises by the layout's slot count; the log grows by the layout's calls from the old counter; the index buffer is unchanged; log slots stay 0, 1, 2, … in order |
| VertexArrays.VertexArray.GetIndexBuffer | src/Renderer/VertexArray.ts:93 | returns the stored index buffer |
| VertexArrays.VertexArray.SetIndexBuffer | src/Renderer/VertexArray.ts:94-98 | stores the index buffer and changes nothing else, so a later get returns it |
| Events.CategoryNumbering | src/Events/Events.ts:3-8 | categories are numbered None = 0 … Mouse = 3, without gaps, one-to-one in both directions |
| Events.TypeNumbering | src/Events/Events.ts:10-15 | event types are numbered None = 0 … MouseScroll = 11 in declaration order, ScreenResize = 1, one-to-one in both directions |
| Events.Event.constructor | src/Events/Events.ts:17-22 | an event starts unhandled with the given category, type and payload |
| Events.Event.KeyTypedEvent | src/Events/KeyboardEvents.ts:71-82 | a key-typed event: Keyboard, KeyTyped, the mapped code, no button |
| Events.Event.KeyReleaseEvent | src/Events/KeyboardEvents.ts:45-56 | a key-release event: Keyboard, KeyRelease, the mapped code, no button |
| Events.Event.MouseButtonTypedEvent | src/Events/MouseEvents.ts:17-25 | a mouse-button press: Mouse, MouseBottonPress, the button and position, no code |
| Events.Event.MouseButtonReleaseEvent | src/Events/MouseEvents.ts:38-46 | a mouse-button release: Mouse, MouseBottonRelease, the button and position, no code |
| Events.Event.MouseMoveEvent | src/Events/MouseEvents.ts:58-65 | a mouse move: Mouse, MouseMove, the position |
| Events.EventDispatcher.constructor | src/Events/Events.ts:32-34 | the dispatcher wraps the given event |
| Events.EventDispatcher.Dispatch | src/Events/Events.ts:36-42 | returns true exactly when the types match, even if the callback says false; on a match `handled` becomes the callback's result, otherwise it is unchanged; type and category are immutable |
| Inputs.KeyOf | src/Inputs/Input.ts:26 | the key of an event is its code when defined, otherwise its button |
| Inputs.Apply | src/Inputs/Input.ts:24-40 | typed/press: key added to typed and pressed; release: key removed from pressed and added to released; mouse move: position replaced; any other type: no change |
| Inputs.ResetFrame | src/Inputs/Input.ts:43-46 | typed and released emptied; pressed and mouse position kept |
| Inputs.PressedAfterEvents | src/Inputs/Input.ts:24-40 | after a run of events a key is held exactly when its last press/release edge was a press, or it had no edge and was held before |
| Inputs.ReleasedAfterEvents | src/Inputs/Input.ts:31-35 | after a run of events a key is in the released set exactly when it was before or some event released it |
| Inputs.TypedAfterEvents | src/Inputs/Input.ts:25-29 | after a run of events a key is in the typed set exactly when it was before or some event typed it |
| Inputs.TypedKeysAreHeldOrReleased | src/Inputs/Input.ts:24-40 | updates preserve "every typed key is held or released" |
| Inputs.Input.constructor | src/Inputs/Input.ts:11-15 | empty sets, mouse at (0, 0) |
| Inputs.Input.IsPressed | src/Inputs/Input.ts:17 | exactly membership in the pressed set |
| Inputs.Input.IsReleased | src/Inputs/Input.ts:18 | exactly membership in the released set |
| Inputs.Input.IsTyped | src/Inputs/Input.ts:19 | exactly membership in the typed set |
| Inputs.Input.GetMousePosition | src/Inputs/Input.ts:21 | the stored mouse position |
| Inputs.Input.Update | src/Inputs/Input.ts:24-40 | the new state is `Apply` of the old state and the event |
| Inputs.Input.Reset | src/Inputs/Input.ts:43-46 | the new state is `ResetFrame` of the old state |
| Textures.SelectFormat | src/Renderer/Texture.ts:26-41 | an image bitmap keeps the defaults FLOAT/RGBA/RGBA; typed data gives the element type of its array kind and a valid sized combination, four-channel exactly when channels = 4 and three-channel otherwise |
| Textures.SelectFormatIsInjective | src/Renderer/Texture.ts:26-41 | for typed data the selected format determines the element type and whether channels = 4 |
| Textures.EverySizedCombinationIsSelected | src/Renderer/Texture.ts:26-41 | each of the six sized combinations is selected by some array kind and channel count |
| Textures.InitialPixels | src/Renderer/Texture.ts:21 | given data is used as is; otherwise a new typed array of width·height·channels elements; a bitmap constructor without data throws TypeError |
| Textures.NewTexture2D | src/Renderer/Texture.ts:11-50 | fails exactly when a bitmap must be allocated; otherwise stores width and height, level 0, border 0 and the selected format, and issues texImage2D with those and the pixels, with an extent exactly for typed data |
| Textures.Upload | src/Renderer/Texture.ts:64-70 | texSubImage2D at (0, 0) and the texture's level in the stored format, with an extent exactly for typed data |
| Textures.UploadSubRectangle | src/Renderer/Texture.ts:72-75 | texSubImage2D of the given rectangle at the texture's level in the stored format |
| Textures.UploadCoversWholeTexture | src/Renderer/Texture.ts:69 | for a constructed texture and typed data, a full upload is the sub-rectangle upload of (0, 0, width, height), at level 0 |
| Materials.Material.constructor | src/Renderer/Material.ts:9-12 | the material's block info is the shader's `ub_Material` entry, or none |
| Materials.WriteStart | src/Renderer/Material.ts:29 | the write starts at the member's reflected offset used as a float index, or at 0 for an unknown name |
| Materials.Overwrite | src/Renderer/Material.ts:31 | same length; vals[k] lands at start + k; every other entry is unchanged |
| Materials.StagedWrite | src/Renderer/Material.ts:31 | RangeError exactly when the byte length is not a multiple of 4 or the values would overrun; otherwise the overwrite |
| Materials.OverwriteIdempotent | src/Renderer/Material.ts:28-32 | repeating the same `set` leaves the same contents |
| Materials.OverwritesCommute | src/Renderer/Material.ts:28-32 | `set`s of disjoint ranges can be done in either order |
| Materials.MaterialInstance.constructor | src/Renderer/Material.ts:22-26 | the buffer has the block's byte size, holding byteLength/4 zero floats |
| Materials.MaterialInstance.Set | src/Renderer/Material.ts:28-32 | the outcome and new buffer are `StagedWrite` of the old buffer; on RangeError the buffer is unchanged |
| Ecs.Count.Incr | src/ECS/Registry.ts:47 | `++` adds 1 to a number; undefined and NaN give NaN |
| Ecs.Count.Decr | src/ECS/Registry.ts:63 | `--` subtracts 1 from a number; undefined and NaN give NaN |
| Ecs.CountOf | src/ECS/Registry.ts:39 | an unwritten counter cell reads undefined |
| Ecs.Dedup | src/ECS/Registry.ts:13-16 | storage names are distinct and are exactly the given component names |
| Ecs.DedupFirstOccurrenceOrder | src/ECS/Registry.ts:13-16 | storage names keep the order of their first occurrence among the component names, the order in which `destroy` walks them |
| Ecs.DestroyWalk | src/ECS/Registry.ts:29-35 | the walk keeps the storage names, and a numeric count stays numeric |
| Ecs.DestroyWalkFrame | src/ECS/Registry.ts:31-34 | the walk only deletes the destroyed entity: other entities' components are untouched, and storages outside the walked names are unchanged |
| Ecs.DestroyWalkDeletesFirstHolders | src/ECS/Registry.ts:31-34 | walking the storages in order from a count k ≥ 1, a storage loses the entity's component exactly when fewer than k earlier storages held it, so every storage after the k-th holder keeps it |
| Ecs.WalkStorages | src/ECS/Registry.ts:30-34 | the loop with its early break computes `DestroyWalk` |
| Ecs.DestroyCount | src/ECS/Registry.ts:29-37 | the count drops by exactly the number of deletions; either it ends at 0 or no storage holds the entity |
| Ecs.DestroyConsistentEntity | src/ECS/Registry.ts:29-37 | when the count equals the number of storages holding the entity, destroy removes all its components and leaves the count 0 |
| Ecs.DestroyWalkStaysNonNegative | src/ECS/Registry.ts:31-34 | a walk starting from a count of at least 1 stops at 0 at the latest, so its count never goes negative |
| Ecs.DestroyStopsAtZero | src/ECS/Registry.ts:31-34 | with a count k between 1 and the number of storages holding the entity, destroy makes exactly k deletions and then stops: the count is 0 and the remaining holdings are the old ones minus k |
| Ecs.Registry.constructor | src/ECS/Registry.ts:13-19 | one empty storage per distinct name, no counters, id counter 0 |
| Ecs.Registry.GetComponentCount | src/ECS/Registry.ts:39 | the entity's counter cell; numeric for every created entity |
| Ecs.Registry.Create | src/ECS/Registry.ts:24-27 | returns the id counter and then raises it by 1 (ids 0, 1, 2, …); the new entity's count is 0; storages unchanged |
| Ecs.Registry.Destroy | src/ECS/Registry.ts:29-37 | storages and the stored count are the result of `DestroyWalk`; other entities' components and counts and the id counter are unchanged |
| Ecs.Registry.Insert | src/ECS/Registry.ts:44-49 | unknown name: TypeError, nothing changes; otherwise stores the component, raises the count by 1 even when replacing, and a following get returns it unless the count is 0 |
| Ecs.Registry.Get | src/ECS/Registry.ts:51-56 | count 0: error 'entity does not have any component to retrieve'; unknown name: TypeError; otherwise the stored component or none, with no state change |
| Ecs.Registry.Remove | src/ECS/Registry.ts:58-64 | count 0: error '…to remove' and nothing changes; unknown name: TypeError and nothing changes; otherwise deletes the entry and lowers the count by 1, deleted or not |
| Ecs.Registry.Clear | src/ECS/Registry.ts:66-68 | unknown name: TypeError; otherwise empties that storage only; counters unchanged |
| Ecs.Registry.ClearAll | src/ECS/Registry.ts:73-76 | every storage emptied; names and counters unchanged |

## Left out

- GL device calls are not modelled as device behaviour; they appear at most as records. This covers bind, delete, `createTexture`, `texParameteri`, `bufferData`/`bufferSubData`, `useProgram` and the uniform-buffer upload (`MaterialInstance.upload`).
- Shader compilation and reflection, `UniformBuffer`, `IndexBuffer` data, `VertexBuffer` data and `RendererCommand` are thin wrappers over GL; only the layout that a vertex buffer carries is modelled.
- Camera, camera controller and `Renderer2D` are floating-point matrix code and per-quad draws; the screen, application, layers, sandbox and bundler configuration are DOM and wiring code.
- Floating point: material values and mouse coordinates are mathematical reals, so float32 rounding in the staging buffer is not modelled.
- `BufferLayout` assigns offsets by writing into the caller's element objects. The model builds a new element sequence, so aliasing of those objects with the caller is not captured. For the same reason, a `BufferElement` object listed twice in one layout ends with the later offset in the source, while the model gives each position its own offset.
- Other shared objects are modelled as values too. `insert`/`get` hand out the stored `{ value }` component object itself (`src/ECS/Registry.ts:45-48,55`), so a caller's later write to `.value` would show in the next `get`. `Input.update` stores the event's own `position` object, and `getMousePosition` returns it (`src/Inputs/Input.ts:21,38`). The model captures neither of these.
- Events.EventDispatcher.Dispatch: the callback is a pure function of the event, so "called exactly once" and "not called on a mismatch" are not observable in the model.
- Key-code mapping (`KeyCodeMapTable`) is not part of this model; key events take the already mapped code. The modifier-key flags, the key-press and scroll events, and the screen events are not modelled.
- Materials.MaterialInstance.constructor: requires that the material has a `ub_Material` block, where the source would throw a TypeError reading `size` of undefined.
- Textures.NewTexture2D: width, height and channels are natural numbers, so the RangeError for a negative array length is not modelled; the texture handle and sampling parameters are left out.
- Ecs.Registry.constructor: component names stand for the constructors' `name` properties; insertion order of string keys is the iteration order (class names are never integer-like keys). Entity ids are integers, not arbitrary JavaScript numbers.
- The registry's component values are given values; running the component constructors with their arguments is not modelled.
