/** `ShaderUniformSettings` of framework/Source/ShaderUniformSettings.swift:
    a flat float buffer holding one slot per declared uniform, a parallel
    array of slot end offsets, and typed writers that resolve a uniform name
    to its slot and overwrite consecutive elements from the slot's start.
    Every way the source stops the process (`fatalError`, an array index out
    of range) is an error result here, with the state left as it was, except
    for the index traps of `InternalIndex` and `AlignPackingForOffset`,
    which are preconditions. */
module ShaderUniforms {
  import opened UniformValues
  import opened UniformLayout

  /** Why the source stops the process. */
  datatype Fault =
    | MissingUniform(name: string)
    | UnsupportedDataType(rawValue: nat)
    | IndexOutOfRange(index: int)

  datatype Status = Done | Fatal(fault: Fault)

  datatype Result<T> = Ok(value: T) | Err(fault: Fault)

  /** `n` blank (+0.0) elements. */
  function Zeros(n: nat): (z: seq<Float32>)
    ensures |z| == n
  {
    seq(n, _ => Zero)
  }

  predicate AllZero(s: seq<Float32>) {
    forall j :: 0 <= j < |s| ==> s[j] == Zero
  }

  /** `s` with the elements from `start` on replaced by `w`. */
  function Overwrite(s: seq<Float32>, start: nat, w: seq<Float32>): seq<Float32>
    requires start + |w| <= |s|
  {
    s[..start] + w + s[start + |w|..]
  }

  /** Overwriting keeps the length, puts `w` at `start` and changes nothing
      outside `start .. start + |w|`. */
  lemma OverwriteAt(s: seq<Float32>, start: nat, w: seq<Float32>)
    requires start + |w| <= |s|
    ensures |Overwrite(s, start, w)| == |s|
    ensures forall j :: 0 <= j < |s| ==>
              Overwrite(s, start, w)[j] == if start <= j < start + |w| then w[j - start] else s[j]
  {
    var r := Overwrite(s, start, w);
    forall j | 0 <= j < |s|
      ensures r[j] == if start <= j < start + |w| then w[j - start] else s[j]
    {
      if j < start {
        assert r[j] == s[..start][j];
      } else if j < start + |w| {
        assert r[j] == (s[..start] + w)[j];
      } else {
        assert r[j] == s[start + |w|..][j - start - |w|];
      }
    }
  }

  /** The first loop of `init`: the slot types in slot-index order, starting
      from a list of `Float` as long as the table and recording each visited
      name's type at its index. An index outside the list stops the process. */
  method OrderDataTypes(table: map<string, (int, MTLDataType)>, order: seq<string>)
    returns (r: Result<seq<MTLDataType>>)
    requires forall k :: k in order <==> k in table
    ensures r.Ok? <==> IndicesInRange(table)
    ensures r.Ok? ==> r.value == OrderedTypes(table, order)
    ensures r.Err? ==> r.fault.IndexOutOfRange? && !(0 <= r.fault.index < |table|)
  {
    var orderedDatatypes := seq(|table|, _ => Float);
    for n := 0 to |order|
      invariant |orderedDatatypes| == |table|
      invariant forall j :: 0 <= j < n ==> 0 <= table[order[j]].0 < |table|
      invariant forall i :: 0 <= i < |table| ==> orderedDatatypes[i] == TypeAt(table, order[..n], i)
    {
      assert order[..n + 1][..n] == order[..n];
      var (index, dataType) := table[order[n]];
      if !(0 <= index < |orderedDatatypes|) {
        return Err(IndexOutOfRange(index));
      }
      orderedDatatypes := orderedDatatypes[index := dataType];
    }
    assert order[..|order|] == order;
    forall k | k in table
      ensures 0 <= table[k].0 < |table|
    {
      var j :| 0 <= j < |order| && order[j] == k;
    }
    return Ok(orderedDatatypes);
  }

  class ShaderUniformSettings {
    /** The packed float buffer. */
    var uniformValues: seq<Float32>
    /** One end offset per slot. */
    var uniformValueOffsets: seq<nat>
    /** Whether colour writes store alpha in the fourth element. */
    var colorUniformsUseAlpha: bool
    /** Uniform name to slot index. */
    const uniformLookupTable: map<string, int>
    /** The data type of each slot appended so far. */
    ghost var slotTypes: seq<MTLDataType>

    /** The buffer and offsets are the layout of `slotTypes`, and the buffer
        ends where the last slot ends. */
    ghost predicate Packed()
      reads this
    {
      && AllSupported(slotTypes)
      && uniformValueOffsets == PackOffsets(slotTypes)
      && |uniformValues| == LastOffset(uniformValueOffsets)
    }

    /** Every name's slot exists. */
    ghost predicate Indexed()
      reads this
    {
      forall k :: k in uniformLookupTable ==> 0 <= uniformLookupTable[k] < |slotTypes|
    }

    /** Packed, and every name's slot exists: the state `init` leaves. */
    ghost predicate Valid()
      reads this
    {
      Packed() && Indexed()
    }

    /** What the accessors rely on: one end offset per slot, every slot has
        room for its reserved size before its end offset, that end offset
        lies within the buffer, and every name's slot exists. */
    ghost predicate SlotsFit()
      reads this
    {
      && |uniformValueOffsets| == |slotTypes|
      && AllSupported(slotTypes)
      && (forall i :: 0 <= i < |slotTypes| ==>
            SlotStart(uniformValueOffsets, i) + ReservedSize(slotTypes[i]) <= uniformValueOffsets[i] <= |uniformValues|)
      && Indexed()
    }

    /** A valid state is one the accessors can rely on. */
    lemma ValidSlotsFit()
      requires Valid()
      ensures SlotsFit()
    {
      forall i | 0 <= i < |slotTypes|
        ensures SlotStart(uniformValueOffsets, i) + ReservedSize(slotTypes[i]) <= uniformValueOffsets[i] <= |uniformValues|
      {
        SlotRoom(slotTypes, i);
      }
    }

    /** The state before any slot is appended. */
    constructor (lookup: map<string, int>)
      ensures uniformLookupTable == lookup
      ensures uniformValues == [] && uniformValueOffsets == [] && slotTypes == []
      ensures !colorUniformsUseAlpha
      ensures Packed()
    {
      uniformLookupTable := lookup;
      uniformValues := [];
      uniformValueOffsets := [];
      colorUniformsUseAlpha := false;
      slotTypes := [];
    }

    /** `init`: orders the declared types by slot index, then appends one slot
        per index in order 0 .. N-1. It stops the process for an index outside
        [0, N) or for a type it cannot pack. */
    static method Create(table: map<string, (int, MTLDataType)>, order: seq<string>)
      returns (r: Result<ShaderUniformSettings>)
      requires forall k :: k in order <==> k in table
      ensures r.Ok? <==> IndicesInRange(table) && AllSupported(OrderedTypes(table, order))
      ensures r.Err? ==>
                if IndicesInRange(table) then r.fault.UnsupportedDataType?
                else r.fault.IndexOutOfRange?
      ensures r.Err? && IndicesInRange(table) ==>
                var types := OrderedTypes(table, order);
                r.fault.UnsupportedDataType? &&
                exists i :: 0 <= i < |types| && AllSupported(types[..i]) && types[i] == Other(r.fault.rawValue)
      ensures r.Ok? ==> fresh(r.value) && r.value.Valid()
      ensures r.Ok? ==> r.value.slotTypes == OrderedTypes(table, order)
      ensures r.Ok? ==> r.value.uniformLookupTable == map k | k in table :: table[k].0
      ensures r.Ok? ==> AllZero(r.value.uniformValues) && !r.value.colorUniformsUseAlpha
      ensures r.Ok? && UniqueIndices(table) ==>
                forall k :: k in table ==> r.value.slotTypes[table[k].0] == table[k].1
    {
      var ordered := OrderDataTypes(table, order);
      if ordered.Err? {
        return Err(ordered.fault);
      }
      var types := ordered.value;
      var lookup := map k | k in table :: table[k].0;
      var settings := new ShaderUniformSettings(lookup);
      var st := settings.AppendSlots(types);
      if st.Fatal? {
        return Err(st.fault);
      }
      if UniqueIndices(table) {
        forall k | k in table
          ensures settings.slotTypes[table[k].0] == table[k].1
        {
          TypeAtClaimed(table, order, k);
        }
      }
      return Ok(settings);
    }

    /** The second loop of `init`: one slot per type, in order, into an
        empty buffer. The first type it cannot pack stops the process, and
        the fault names that type's raw value. */
    method AppendSlots(types: seq<MTLDataType>) returns (st: Status)
      requires uniformValues == [] && uniformValueOffsets == [] && slotTypes == []
      modifies this`uniformValues, this`uniformValueOffsets, this`slotTypes
      ensures st.Done? <==> AllSupported(types)
      ensures st.Fatal? ==>
                st.fault.UnsupportedDataType? &&
                exists i :: 0 <= i < |types| && AllSupported(types[..i]) && types[i] == Other(st.fault.rawValue)
      ensures st.Done? ==> Packed() && slotTypes == types && AllZero(uniformValues)
    {
      for i := 0 to |types|
        invariant Packed() && slotTypes == types[..i]
        invariant AllZero(uniformValues)
      {
        ghost var before := uniformValues;
        st := AppendBufferSpace(types[i]);
        if st.Fatal? {
          assert AllSupported(types[..i]) && types[i] == Other(st.fault.rawValue);
          return;
        }
        AppendKeepsLayout(types, i, before);
      }
      assert types[..|types|] == types;
      st := Done;
    }

    /** `usesAspectRatio`: a uniform named "aspectRatio" is declared, which is
        exactly when reading it as a float does not stop the process. */
    function UsesAspectRatio(): (r: bool)
      reads this
      ensures SlotsFit() ==> (r <==> GetFloat("aspectRatio").Ok?)
    {
      "aspectRatio" in uniformLookupTable
    }

    /** `internalIndex`: where slot `index` starts. In a packed buffer the
        slot has room for its reserved size before the next slot starts, and
        that lies within the buffer. */
    function InternalIndex(index: int): (start: nat)
      reads this
      requires 0 <= index <= |uniformValueOffsets|
      ensures SlotsFit() && index < |slotTypes| ==>
                start + ReservedSize(slotTypes[index]) <= uniformValueOffsets[index] <= |uniformValues|
    {
      if index == 0 then 0 else uniformValueOffsets[index - 1]
    }

    /** The float getter: the first element of the named slot; an unknown
        name stops the process. */
    function GetFloat(key: string): (r: Result<Float32>)
      reads this
      requires SlotsFit()
      ensures r.Err? <==> key !in uniformLookupTable
      ensures r.Err? ==> r.fault == MissingUniform(key)
      ensures r.Ok? ==> r.value == uniformValues[InternalIndex(uniformLookupTable[key])]
    {
      if key !in uniformLookupTable then Err(MissingUniform(key))
      else
        var start := InternalIndex(uniformLookupTable[key]);
        Ok(uniformValues[start])
    }

    /** The float setter: overwrites the first element of the named slot and
        nothing else, so that reading the name back gives `v`. */
    method SetFloat(key: string, v: Float32) returns (st: Status)
      requires SlotsFit()
      modifies this`uniformValues
      ensures SlotsFit()
      ensures st.Fatal? <==> key !in uniformLookupTable
      ensures st.Fatal? ==> st.fault == MissingUniform(key) && uniformValues == old(uniformValues)
      ensures st.Done? ==>
                uniformValues == old(uniformValues)[InternalIndex(uniformLookupTable[key]) := v]
      ensures st.Done? ==> GetFloat(key) == Ok(v)
    {
      if key !in uniformLookupTable {
        return Fatal(MissingUniform(key));
      }
      var index := uniformLookupTable[key];
      var start := InternalIndex(index);
      uniformValues := uniformValues[start := v];
      st := Done;
    }

    /** The colour setter: red, green and blue go to the first three elements
        of the slot; alpha goes to the fourth only when
        `colorUniformsUseAlpha` is set, otherwise the fourth is left as it
        was. */
    method SetColor(key: string, c: Color) returns (st: Status)
      requires SlotsFit()
      modifies this`uniformValues
      ensures SlotsFit()
      ensures key !in uniformLookupTable ==> st == Fatal(MissingUniform(key))
      ensures key in uniformLookupTable ==>
                var start := InternalIndex(uniformLookupTable[key]);
                var written := if colorUniformsUseAlpha then ColorToFloatArrayWithAlpha(c)
                               else ColorToFloatArray(c)[..3];
                if start + |written| <= |old(uniformValues)| then
                  st == Done && uniformValues == Overwrite(old(uniformValues), start, written)
                else st == Fatal(IndexOutOfRange(|old(uniformValues)|))
      ensures st.Fatal? ==> uniformValues == old(uniformValues)
      ensures st.Done? && !colorUniformsUseAlpha ==>
                var start := InternalIndex(uniformLookupTable[key]);
                start + 3 < |uniformValues| ==> uniformValues[start + 3] == old(uniformValues)[start + 3]
    {
      if key !in uniformLookupTable {
        return Fatal(MissingUniform(key));
      }
      var startingIndex := InternalIndex(uniformLookupTable[key]);
      var values := uniformValues;
      if colorUniformsUseAlpha {
        var floatArray := ColorToFloatArrayWithAlpha(c);
        if startingIndex + 4 > |values| {
          return Fatal(IndexOutOfRange(|values|));
        }
        values := values[startingIndex := floatArray[0]];
        values := values[startingIndex + 1 := floatArray[1]];
        values := values[startingIndex + 2 := floatArray[2]];
        values := values[startingIndex + 3 := floatArray[3]];
        WriteFour(uniformValues, startingIndex, floatArray);
      } else {
        var floatArray := ColorToFloatArray(c);
        if startingIndex + 3 > |values| {
          return Fatal(IndexOutOfRange(|values|));
        }
        values := values[startingIndex := floatArray[0]];
        values := values[startingIndex + 1 := floatArray[1]];
        values := values[startingIndex + 2 := floatArray[2]];
        WriteThree(uniformValues, startingIndex, floatArray[..3]);
      }
      uniformValues := values;
      st := Done;
    }

    /** The loop shared by the position, size and matrix setters: resolve the
        name, then copy `floats` element by element from the slot's start. The
        copy is not limited to the slot: floats beyond the slot's span go into
        the following slot, and a copy running past the end of the buffer stops
        the process. A copy no longer than the slot's reserved size stays
        inside the slot. */
    method WriteFloats(key: string, floats: seq<Float32>) returns (st: Status)
      requires SlotsFit()
      modifies this`uniformValues
      ensures SlotsFit()
      ensures key !in uniformLookupTable ==> st == Fatal(MissingUniform(key))
      ensures key in uniformLookupTable ==>
                var start := InternalIndex(uniformLookupTable[key]);
                if start + |floats| <= |old(uniformValues)| then
                  st == Done && uniformValues == Overwrite(old(uniformValues), start, floats)
                else st == Fatal(IndexOutOfRange(|old(uniformValues)|))
      ensures st.Fatal? ==> uniformValues == old(uniformValues)
      ensures key in uniformLookupTable && |floats| <= ReservedSize(slotTypes[uniformLookupTable[key]]) ==>
                var index := uniformLookupTable[key];
                && st == Done
                && forall j :: 0 <= j < |uniformValues| && !(InternalIndex(index) <= j < uniformValueOffsets[index]) ==>
                     uniformValues[j] == old(uniformValues)[j]
    {
      if key !in uniformLookupTable {
        return Fatal(MissingUniform(key));
      }
      var index := uniformLookupTable[key];
      var start := InternalIndex(index);
      if start + |floats| > |uniformValues| {
        return Fatal(IndexOutOfRange(|uniformValues|));
      }
      var currentIndex := start;
      for i := 0 to |floats|
        invariant currentIndex == start + i
        invariant |uniformValues| == |old(uniformValues)|
        invariant forall j :: 0 <= j < |uniformValues| ==>
                    uniformValues[j] == if start <= j < start + i then floats[j - start] else old(uniformValues)[j]
      {
        uniformValues := uniformValues[currentIndex := floats[i]];
        currentIndex := currentIndex + 1;
      }
      OverwriteAt(old(uniformValues), start, floats);
      st := Done;
    }

    /** The position setter: [x, y] for a 2D position, [x, y, z, 0] for a 3D
        one, from the slot's start. */
    method SetPosition(key: string, p: Position) returns (st: Status)
      requires SlotsFit()
      modifies this`uniformValues
      ensures SlotsFit()
      ensures key !in uniformLookupTable ==> st == Fatal(MissingUniform(key))
      ensures key in uniformLookupTable ==>
                var start := InternalIndex(uniformLookupTable[key]);
                if start + |PositionToFloatArray(p)| <= |old(uniformValues)| then
                  st == Done && uniformValues == Overwrite(old(uniformValues), start, PositionToFloatArray(p))
                else st == Fatal(IndexOutOfRange(|old(uniformValues)|))
      ensures st.Fatal? ==> uniformValues == old(uniformValues)
      ensures key in uniformLookupTable && |PositionToFloatArray(p)| <= ReservedSize(slotTypes[uniformLookupTable[key]]) ==>
                st == Done
    {
      st := WriteFloats(key, PositionToFloatArray(p));
    }

    /** The size setter: [width, height] from the slot's start. */
    method SetSize(key: string, s: Size) returns (st: Status)
      requires SlotsFit()
      modifies this`uniformValues
      ensures SlotsFit()
      ensures key !in uniformLookupTable ==> st == Fatal(MissingUniform(key))
      ensures key in uniformLookupTable ==>
                var start := InternalIndex(uniformLookupTable[key]);
                if start + |SizeToFloatArray(s)| <= |old(uniformValues)| then
                  st == Done && uniformValues == Overwrite(old(uniformValues), start, SizeToFloatArray(s))
                else st == Fatal(IndexOutOfRange(|old(uniformValues)|))
      ensures st.Fatal? ==> uniformValues == old(uniformValues)
      ensures key in uniformLookupTable && slotTypes[uniformLookupTable[key]] != Float ==> st == Done
    {
      st := WriteFloats(key, SizeToFloatArray(s));
    }

    /** The 3x3 matrix setter: twelve elements, row-major with a zero after
        each row, from the slot's start. */
    method SetMatrix3x3(key: string, m: Matrix3x3) returns (st: Status)
      requires SlotsFit()
      modifies this`uniformValues
      ensures SlotsFit()
      ensures key !in uniformLookupTable ==> st == Fatal(MissingUniform(key))
      ensures key in uniformLookupTable ==>
                var start := InternalIndex(uniformLookupTable[key]);
                if start + |Matrix3x3ToFloatArray(m)| <= |old(uniformValues)| then
                  st == Done && uniformValues == Overwrite(old(uniformValues), start, Matrix3x3ToFloatArray(m))
                else st == Fatal(IndexOutOfRange(|old(uniformValues)|))
      ensures st.Fatal? ==> uniformValues == old(uniformValues)
      ensures key in uniformLookupTable && slotTypes[uniformLookupTable[key]] in {Float3x3, Float4x4} ==> st == Done
    {
      st := WriteFloats(key, Matrix3x3ToFloatArray(m));
    }

    /** The 4x4 matrix setter: sixteen elements, row-major, from the slot's
        start. */
    method SetMatrix4x4(key: string, m: Matrix4x4) returns (st: Status)
      requires SlotsFit()
      modifies this`uniformValues
      ensures SlotsFit()
      ensures key !in uniformLookupTable ==> st == Fatal(MissingUniform(key))
      ensures key in uniformLookupTable ==>
                var start := InternalIndex(uniformLookupTable[key]);
                if start + |Matrix4x4ToFloatArray(m)| <= |old(uniformValues)| then
                  st == Done && uniformValues == Overwrite(old(uniformValues), start, Matrix4x4ToFloatArray(m))
                else st == Fatal(IndexOutOfRange(|old(uniformValues)|))
      ensures st.Fatal? ==> uniformValues == old(uniformValues)
      ensures key in uniformLookupTable && slotTypes[uniformLookupTable[key]] == Float4x4 ==> st == Done
    {
      st := WriteFloats(key, Matrix4x4ToFloatArray(m));
    }

    /** `appendBufferSpace`: reserves the type's storage as a new slot, after
        any padding in front of it; a type it cannot pack stops the process
        before anything changes. The new end offsets are those of one more
        slot under the layout rule, and the buffer grows by zeros up to the
        new slot's end. */
    method AppendBufferSpace(dataType: MTLDataType) returns (st: Status)
      modifies this`uniformValues, this`uniformValueOffsets, this`slotTypes
      ensures st == if dataType.Other? then Fatal(UnsupportedDataType(dataType.rawValue)) else Done
      ensures st.Fatal? ==> unchanged(this)
      ensures st.Done? ==> slotTypes == old(slotTypes) + [dataType]
      ensures st.Done? ==> uniformValueOffsets == AppendWith(Padding, old(uniformValueOffsets), dataType)
      ensures st.Done? ==>
                uniformValues == old(uniformValues) + Zeros(LastOffset(uniformValueOffsets) - LastOffset(old(uniformValueOffsets)))
    {
      if dataType.Other? {
        return Fatal(UnsupportedDataType(dataType.rawValue));
      }
      var uniformSize := ReservedSize(dataType);
      var blankValues := Zeros(uniformSize);
      var previous := LastOffset(uniformValueOffsets);
      if uniformValueOffsets == [] {
        NoPaddingAfterAligned(uniformSize, 0);
      }
      var lastOffset := AlignPackingForOffset(uniformSize, previous);
      AlignThenAppend(old(uniformValueOffsets), dataType, lastOffset, uniformValueOffsets);
      ZerosAppend(old(uniformValues), lastOffset - previous, uniformSize);
      uniformValues := uniformValues + blankValues;
      uniformValueOffsets := uniformValueOffsets + [lastOffset + uniformSize];
      slotTypes := slotTypes + [dataType];
      st := Done;
    }

    /** `alignPackingForOffset`: when padding is due in front of a slot of
        `uniformSize` elements after `lastOffset`, appends that many zeros and
        moves the previous slot's end offset past them; returns where the new
        slot starts. Padding with no previous slot would index the offsets at
        -1, which the only caller never does. */
    method AlignPackingForOffset(uniformSize: nat, lastOffset: nat) returns (r: nat)
      requires Padding(uniformSize, lastOffset) > 0 ==> uniformValueOffsets != []
      modifies this`uniformValues, this`uniformValueOffsets
      ensures r == lastOffset + Padding(uniformSize, lastOffset)
      ensures uniformValues == old(uniformValues) + Zeros(r - lastOffset)
      ensures uniformValueOffsets ==
                if r > lastOffset then SetLast(old(uniformValueOffsets), r) else old(uniformValueOffsets)
    {
      var floatAlignment := (lastOffset + uniformSize) % 4;
      var previousFloatAlignment := lastOffset % 4;
      if uniformSize > 1 && floatAlignment != 0 && previousFloatAlignment != 0 {
        var paddingToAlignment := 4 - floatAlignment;
        uniformValues := uniformValues + Zeros(paddingToAlignment);
        uniformValueOffsets := uniformValueOffsets[|uniformValueOffsets| - 1 := lastOffset + paddingToAlignment];
        r := lastOffset + paddingToAlignment;
      } else {
        r := lastOffset;
        assert Zeros(0) == [];
      }
    }

    /** The guard of `restoreShaderSettings`: the floats handed to the GPU
        buffer, or nothing when the buffer is empty, which is exactly when no
        uniform is declared. */
    function UploadSnapshot(): (r: Option<seq<Float32>>)
      reads this
      requires Packed()
      ensures r.None? <==> slotTypes == []
      ensures r.Some? ==> r.value == uniformValues && |r.value| == LastOffset(PackOffsets(slotTypes))
    {
      if |uniformValues| > 0 then Some(uniformValues) else None
    }
  }

  /** Writing three elements one by one from `start` overwrites them. */
  lemma WriteThree(s: seq<Float32>, start: nat, w: seq<Float32>)
    requires |w| == 3 && start + 3 <= |s|
    ensures s[start := w[0]][start + 1 := w[1]][start + 2 := w[2]] == Overwrite(s, start, w)
  {
    OverwriteAt(s, start, w);
  }

  /** Writing four elements one by one from `start` overwrites them. */
  lemma WriteFour(s: seq<Float32>, start: nat, w: seq<Float32>)
    requires |w| == 4 && start + 4 <= |s|
    ensures s[start := w[0]][start + 1 := w[1]][start + 2 := w[2]][start + 3 := w[3]] == Overwrite(s, start, w)
  {
    OverwriteAt(s, start, w);
  }

  /** Appending zeros twice appends them once. */
  lemma ZerosAppend(s: seq<Float32>, m: nat, n: nat)
    ensures s + Zeros(m) + Zeros(n) == s + Zeros(m + n)
  {
  }

  /** Replacing the last end offset by itself changes nothing. */
  lemma SetLastOfLast(offsets: seq<nat>)
    ensures SetLast(offsets, LastOffset(offsets)) == offsets
  {
    if offsets != [] {
      assert offsets[..|offsets| - 1] + [offsets[|offsets| - 1]] == offsets;
    }
  }

  /** Aligning the last end offset to the padded start `start` and then
      recording the new slot's end is appending the slot under the layout
      rule. */
  lemma AlignThenAppend(offsets: seq<nat>, t: MTLDataType, start: nat, aligned: seq<nat>)
    requires Supported(t)
    requires start == LastOffset(offsets) + Padding(ReservedSize(t), LastOffset(offsets))
    requires aligned == if start > LastOffset(offsets) then SetLast(offsets, start) else offsets
    ensures aligned + [start + ReservedSize(t)] == AppendWith(Padding, offsets, t)
    ensures LastOffset(aligned + [start + ReservedSize(t)]) == start + ReservedSize(t)
  {
    SetLastOfLast(offsets);
  }

  /** Appending slot i of `ts` to a buffer laid out for the slots before it,
      and padding the buffer with zeros up to the new last end offset, gives
      the layout of the first i + 1 slots. */
  lemma AppendKeepsLayout(ts: seq<MTLDataType>, i: nat, values: seq<Float32>)
    requires i < |ts| && AllSupported(ts[..i]) && Supported(ts[i])
    requires |values| == LastOffset(PackOffsets(ts[..i]))
    ensures AllSupported(ts[..i + 1])
    ensures AppendWith(Padding, PackOffsets(ts[..i]), ts[i]) == PackOffsets(ts[..i + 1])
    ensures var grown := LastOffset(PackOffsets(ts[..i + 1])) - LastOffset(PackOffsets(ts[..i]));
            |values + Zeros(grown)| == LastOffset(PackOffsets(ts[..i + 1]))
  {
    assert ts[..i + 1] == ts[..i] + [ts[i]];
    AppendSlot(ts[..i], ts[i]);
    OffsetsIncrease(ts[..i + 1]);
  }

  /** In the layout of `ts`, slot `i` has room for its reserved size before
      its end offset, and that end offset lies within the buffer. */
  lemma SlotRoom(ts: seq<MTLDataType>, i: nat)
    requires AllSupported(ts) && i < |ts|
    ensures var offsets := PackOffsets(ts);
            SlotStart(offsets, i) + ReservedSize(ts[i]) <= offsets[i] <= LastOffset(offsets)
  {
    SlotSpan(ts, i);
    OffsetsIncrease(ts);
  }
}
