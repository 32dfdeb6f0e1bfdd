# ShaderUniformSettings uniform buffer, in Dafny

This project models the uniform-buffer store of a Metal image-processing
framework, class `ShaderUniformSettings`. The store's input is a table mapping
each shader uniform's name to a slot index and a Metal data type. From it the
store builds:

- a flat buffer of 32-bit floats (`uniformValues`) with one slot per uniform,
  padded so that float3, float4 and matrix slots start on a 4-float
  boundary and float2 slots on an even element;
- one end offset per slot (`uniformValueOffsets`).

Typed setters then resolve a name to its slot and overwrite consecutive floats
from the slot's start. The value each setter writes comes from a
`toFloatArray` conversion.

The project has three modules:

- `UniformValues` (values.dfy) holds the value records (colour, position,
  size, 3x3 and 4x4 matrices) and their float packings. A float is kept as
  its 32-bit pattern, because the store only copies floats.
- `UniformLayout` (layout.dfy) holds the data types and their reserved sizes,
  the padding rule, and the slot end offsets that appending the slots in
  order produces (`PackOffsets`). It also holds the slot types in slot order
  that `init` builds from the table (`OrderedTypes`). All of these are pure
  functions, and the lemmas about the whole layout are proved over them.
- `ShaderUniforms` (settings.dfy) holds the class itself. Its two arrays are
  `seq` fields, and its methods update them the way the source does.
  - A ghost field `slotTypes` records the type of each slot appended so far.
  - `Packed()` states the central invariant: the offsets are exactly
    `PackOffsets(slotTypes)`, and the buffer ends where the last slot ends.
  - Every way the source stops the process becomes an error result: a
    `fatalError`, or an array index out of range. On these paths the state is
    unchanged. The exceptions are the traps listed under "## Left out": two
    become preconditions, and integer overflow is not modelled.

The padding rule follows the code (lines 202-213). One might expect every
slot wider than one float to start on a 4-float boundary. The code instead
pads only enough to make the new slot *end* on a multiple of 4. After three
floats, for example, a float2 starts at element 6, not 4
(`Float2AfterThreeFloats`).
`StartsAligned` shows what the code does guarantee:

- every float2 slot starts at an even element;
- every float3, float4 and matrix slot starts at a multiple of 4.

## Model

| member | source | states |
|---|---|---|
| UniformLayout.ReservedSize | framework/Source/ShaderUniformSettings.swift:186-192 | the reserved element count is float 1, float2 2, float3 4, float4 4, float3x3 12, float4x4 16; it is at least the type's logical float count and at most 3 more |
| UniformLayout.Padding | framework/Source/ShaderUniformSettings.swift:203-211 | padding is inserted only when the slot is wider than one element, would not end on a multiple of 4, and follows an end not on a multiple of 4; the amount is at most 3 |
| UniformLayout.PackOffsets | framework/Source/ShaderUniformSettings.swift:184-213 | the end offsets of appending the slots of ts one by one (the loop at lines 43-45); one per slot |
| UniformLayout.SlotSpan | framework/Source/ShaderUniformSettings.swift:197-199 | slot i ends at its start plus its reserved size plus the padding the next slot inserted; the padding is credited to the earlier slot |
| UniformLayout.OffsetsIncrease | framework/Source/ShaderUniformSettings.swift:184-213 | the end offsets are strictly increasing |
| UniformLayout.PaddedSlotEndsAligned | framework/Source/ShaderUniformSettings.swift:205-209 | a slot in front of which padding was inserted ends on a multiple of 4 and keeps that end (the padding itself is credited to the slot before, which need not end aligned) |
| UniformLayout.StartsAligned | framework/Source/ShaderUniformSettings.swift:197-209 | every slot starts on its type's boundary: an even element for float2, a multiple of 4 for float3, float4 and the matrices |
| UniformLayout.TotalBounds | framework/Source/ShaderUniformSettings.swift:195-209 | the buffer holds the sum of the reserved sizes plus at most 3 padding elements per slot |
| UniformLayout.Float2AfterThreeFloats | framework/Source/ShaderUniformSettings.swift:202-213 | float, float, float, float2 gives end offsets [1, 2, 6, 8] |
| UniformLayout.Float2PairThenFloat4 | framework/Source/ShaderUniformSettings.swift:202-213 | float2, float2, float4 gives end offsets [2, 4, 8] with no padding |
| UniformLayout.Float3x3AfterFloat | framework/Source/ShaderUniformSettings.swift:202-213 | float, float3x3, float gives end offsets [4, 16, 17] |
| UniformLayout.OrderedTypes | framework/Source/ShaderUniformSettings.swift:33-39 | one type per declared name; slot i holds the type of the last visited name with index i, else float (TypeAtClaimed, TypeAtUnclaimed) |
| UniformLayout.TypeAtClaimed | framework/Source/ShaderUniformSettings.swift:35-39 | with distinct slot indices, a visited name's slot receives that name's type |
| UniformLayout.TypeAtUnclaimed | framework/Source/ShaderUniformSettings.swift:33-39 | a slot no visited name claims keeps the initial float |
| UniformLayout.OrderIndependent | framework/Source/ShaderUniformSettings.swift:35-39 | with distinct slot indices, the slot types do not depend on the dictionary's iteration order |
| ShaderUniforms.OrderDataTypes | framework/Source/ShaderUniformSettings.swift:33-39 | the first loop of init succeeds exactly when every index is in [0, N); it then yields the slot types in slot order, and otherwise reports the offending index |
| ShaderUniforms.ShaderUniformSettings.Create | framework/Source/ShaderUniformSettings.swift:30-46 | init succeeds exactly when the indices are in range and every type is packable; the new store is packed over the ordered types, maps each name to its index, and holds zeros only; a failure with all indices in range reports the raw value of the first unpackable type in slot order |
| ShaderUniforms.ShaderUniformSettings.AppendSlots | framework/Source/ShaderUniformSettings.swift:43-45 | appending the ordered types one by one yields the packed layout of exactly those types, all zeros, or stops at the first unsupported type and reports that type's raw value |
| ShaderUniforms.ShaderUniformSettings.AppendBufferSpace | framework/Source/ShaderUniformSettings.swift:184-200 | an unsupported type is fatal and changes nothing; otherwise the offsets become those of one more slot and the buffer grows by zeros up to the new end |
| ShaderUniforms.ShaderUniformSettings.AlignPackingForOffset | framework/Source/ShaderUniformSettings.swift:202-213 | returns the start after padding; appends exactly the padding zeros and moves the last end offset to the new start when padding occurred |
| ShaderUniforms.AppendKeepsLayout | framework/Source/ShaderUniformSettings.swift:43-45 | one appendBufferSpace step takes the layout of the first i slots to that of the first i + 1, and the buffer length still equals the last end offset |
| ShaderUniforms.AlignThenAppend | framework/Source/ShaderUniformSettings.swift:194-199 | moving the last end offset to the padded start and then recording the new slot's end is exactly one append under the layout rule, and the new last end is the start plus the reserved size |
| ShaderUniforms.SlotRoom | framework/Source/ShaderUniformSettings.swift:53-59 | in the packed layout every slot has room for its reserved size before its end offset, which lies within the buffer |
| ShaderUniforms.ShaderUniformSettings.ValidSlotsFit | framework/Source/ShaderUniformSettings.swift:53-59 | a store as init leaves it satisfies what the accessors rely on: every name's slot exists and fits in the buffer |
| ShaderUniforms.ShaderUniformSettings.InternalIndex | framework/Source/ShaderUniformSettings.swift:53-59 | returns the slot's start; the slot's reserved size fits before its end offset, inside the buffer |
| ShaderUniforms.ShaderUniformSettings.UsesAspectRatio | framework/Source/ShaderUniformSettings.swift:48 | true exactly when reading "aspectRatio" as a float does not fail |
| ShaderUniforms.ShaderUniformSettings.GetFloat | framework/Source/ShaderUniformSettings.swift:66-69 | an unknown name is fatal; otherwise returns the first element of the name's slot |
| ShaderUniforms.ShaderUniformSettings.SetFloat | framework/Source/ShaderUniformSettings.swift:70-75 | an unknown name is fatal and changes nothing; otherwise exactly the slot's first element changes, and reading the name back gives the value written |
| ShaderUniforms.ShaderUniformSettings.SetColor | framework/Source/ShaderUniformSettings.swift:84-101 | writes r, g, b, and alpha only when colorUniformsUseAlpha is set, from the slot's start; without alpha the fourth element is unchanged; an unknown name or a write past the buffer is fatal and changes nothing |
| ShaderUniforms.ShaderUniformSettings.WriteFloats | framework/Source/ShaderUniformSettings.swift:113-119 | the setter loop overwrites exactly the given floats from the slot's start and nothing else; a write no longer than the slot's reserved size always succeeds and stays inside the slot |
| ShaderUniforms.ShaderUniformSettings.SetPosition | framework/Source/ShaderUniformSettings.swift:111-121 | overwrites [x, y] or [x, y, z, 0] from the slot's start; it succeeds whenever that fits the slot's reserved size |
| ShaderUniforms.ShaderUniformSettings.SetSize | framework/Source/ShaderUniformSettings.swift:130-140 | overwrites [width, height] from the slot's start; it succeeds whenever the slot is wider than a float |
| ShaderUniforms.ShaderUniformSettings.SetMatrix3x3 | framework/Source/ShaderUniformSettings.swift:148-158 | overwrites the 12 padded row-major floats from the slot's start; it succeeds for a 3x3 or 4x4 slot |
| ShaderUniforms.ShaderUniformSettings.SetMatrix4x4 | framework/Source/ShaderUniformSettings.swift:166-176 | overwrites the 16 row-major floats from the slot's start; it succeeds for a 4x4 slot |
| ShaderUniforms.ShaderUniformSettings.UploadSnapshot | framework/Source/ShaderUniformSettings.swift:217 | nothing is uploaded exactly when no slot was declared; otherwise the whole packed buffer is uploaded |
| ShaderUniforms.OverwriteAt | framework/Source/ShaderUniformSettings.swift:134-137 | overwriting keeps the length, puts the floats at the start index and changes nothing outside them |
| UniformValues.ColorToFloatArray | framework/Source/ShaderUniformSettings.swift:244-250 | the colour without alpha agrees with the alpha form on red, green and blue, and has a zero in place of alpha |
| UniformValues.ColorToFloatArrayWithAlpha | framework/Source/ShaderUniformSettings.swift:248-250 | the colour with alpha packs to four floats, alpha last |
| UniformValues.SizeToFloatArray | framework/Source/ShaderUniformSettings.swift:279-283 | a size packs to [width, height] |
| UniformValues.PositionToFloatArray | framework/Source/ShaderUniformSettings.swift:254-260 | a 2D position packs to [x, y], a 3D one to [x, y, z, 0] |
| UniformValues.Matrix3x3ToFloatArray | framework/Source/ShaderUniformSettings.swift:264-268 | entry (r, c) is at element 4r + c, and elements 3, 7 and 11 are zero |
| UniformValues.Matrix4x4ToFloatArray | framework/Source/ShaderUniformSettings.swift:272-276 | entry (r, c) is at element 4r + c |
| UniformValues.PackingIsInjective | framework/Source/ShaderUniformSettings.swift:243-283 | distinct colours (with alpha), positions, sizes and matrices pack to distinct float sequences |

## Left out

- The `DispatchQueue` serialisation (lines 22-24, 71, 85, 112, 131, 149, 167, 216) is concurrency. Each setter is modelled as one synchronous update. The getter at lines 66-69 does not go through the queue, so in the source a read straight after a write may still see the old value; the read-back that `SetFloat` proves holds only under this synchronous model.
- `restoreShaderSettings` creates a Metal buffer and calls `setFragmentBuffer` (lines 219-222). This is GPU device I/O, so only the empty-buffer guard at line 217 is kept (`UploadSnapshot`).
- `Double.toFloatArray` (lines 237-241) rounds a double to a float. Floating-point rounding is not modelled, and float values are opaque bit patterns.
- `Float.toFloatArray` (lines 231-235) returns `[self]` and has no caller in the class. The float setter writes the element directly.
- The composite getters (lines 81-82, 108-109, 127-128, 145-146, 163-164) are stubs that return fixed constants. Nothing about them is modelled.
- framework/Source/YUVToRGBConversion.swift is not part of this model. It only calls the store.
- The `Color`, `Position`, `Size`, `Matrix3x3` and `Matrix4x4` types are declared in files that are not part of this model. They are plain records here.
- Swift's 64-bit `Int` is modelled as an unbounded `nat`. An offset that large cannot arise from a table of realistic size.
- ShaderUniforms.ShaderUniformSettings.Create: the dictionary's iteration order is unspecified, so it is a parameter `order` that contains every key of the table and no other string. A key may repeat in `order`; since the later visit overwrites the earlier one, the outcome equals that of the order with the earlier occurrence removed. `init` cannot return an error, so it becomes a static method returning a `Result`.
- ShaderUniforms.ShaderUniformSettings.SetColor: a trap after some elements were already written is modelled as leaving the buffer unchanged. The process stops, so the partial write is never observed. The same holds for WriteFloats and the setters built on it.
- ShaderUniforms.ShaderUniformSettings.InternalIndex: an index outside [0, number of offsets] would trap in the source. A precondition excludes it instead, because every caller passes an index from the lookup table, which `Indexed()` keeps in range.
- ShaderUniforms.ShaderUniformSettings.AlignPackingForOffset: padding with no previous slot would index the offsets at -1 and trap. A precondition excludes it instead, because the only caller passes lastOffset 0 when there are no slots, and no padding follows 0.
- ShaderUniforms.ShaderUniformSettings.AppendBufferSpace: the source's `switch` on the data type is the function `ReservedSize`. The method calls that function rather than repeating the switch.
