/** The layout rules of the uniform buffer: how much storage each Metal data
    type reserves, where alignment padding goes, and the slot end offsets that
    appending the slots in order produces (`appendBufferSpace` and
    `alignPackingForOffset` of framework/Source/ShaderUniformSettings.swift),
    stated as pure functions so that properties of the whole layout can be
    proved about them. */
module UniformLayout {

  /** The cases of `MTLDataType` the settings know how to pack, plus every
      other case, kept by its raw value. */
  datatype MTLDataType = Float | Float2 | Float3 | Float4 | Float3x3 | Float4x4 | Other(rawValue: nat)

  predicate Supported(t: MTLDataType) {
    !t.Other?
  }

  predicate AllSupported(ts: seq<MTLDataType>) {
    forall i :: 0 <= i < |ts| ==> Supported(ts[i])
  }

  /** The number of floats a value of the type actually carries. */
  function LogicalFloats(t: MTLDataType): nat
    requires Supported(t)
  {
    match t
    case Float => 1
    case Float2 => 2
    case Float3 => 3
    case Float4 => 4
    case Float3x3 => 9
    case Float4x4 => 16
  }

  /** The number of elements a slot of the type reserves. A float3 takes four
      elements and a float3x3 takes three rows of four. */
  function ReservedSize(t: MTLDataType): (n: nat)
    requires Supported(t)
    ensures 1 <= LogicalFloats(t) <= n < LogicalFloats(t) + 4
  {
    match t
    case Float => 1
    case Float2 => 2
    case Float3 => 4
    case Float4 => 4
    case Float3x3 => 12
    case Float4x4 => 16
  }

  /** The zeros inserted in front of a slot of `size` elements when the
      previous slot ends at `lastOffset`. Padding happens only for a slot of
      more than one element that would not end on a multiple of 4 and whose
      predecessor did not end on one either; it is then the least amount that
      makes the new slot end on a multiple of 4. */
  function Padding(size: nat, lastOffset: nat): (p: nat)
    ensures p <= 3
  {
    var floatAlignment := (lastOffset + size) % 4;
    var previousFloatAlignment := lastOffset % 4;
    if size > 1 && floatAlignment != 0 && previousFloatAlignment != 0 then 4 - floatAlignment else 0
  }

  /** The last recorded end offset, or 0 when no slot has been recorded. */
  function LastOffset(offsets: seq<nat>): nat {
    if offsets == [] then 0 else offsets[|offsets| - 1]
  }

  /** `offsets` with its last entry replaced by `v`; no change when empty. */
  function SetLast(offsets: seq<nat>, v: nat): (r: seq<nat>)
    ensures |r| == |offsets|
  {
    if offsets == [] then [] else offsets[..|offsets| - 1] + [v]
  }

  // The settings only ever pad with `Padding`. The layout functions and the
  // lemmas about spans take the padding rule as a parameter `pad` so that
  // the proofs by induction never see `Padding`'s modular arithmetic; the
  // arithmetic is proved once, in the lemmas that instantiate `pad`.

  /** The end offsets after appending one slot of type `t` under the padding
      rule `pad`: the padding in front of the new slot is credited to the
      previous slot's end offset, and the new slot's end follows its reserved
      size. */
  function AppendWith(pad: (nat, nat) -> nat, offsets: seq<nat>, t: MTLDataType): (r: seq<nat>)
    requires Supported(t)
    ensures |r| == |offsets| + 1
  {
    var last := LastOffset(offsets);
    var size := ReservedSize(t);
    var p := pad(size, last);
    SetLast(offsets, last + p) + [last + p + size]
  }

  /** What appending a slot does to each end offset. */
  lemma AppendWithAt(pad: (nat, nat) -> nat, offsets: seq<nat>, t: MTLDataType)
    requires Supported(t)
    ensures var r := AppendWith(pad, offsets, t);
            var last := LastOffset(offsets);
            var p := pad(ReservedSize(t), last);
            && (forall j :: 0 <= j < |offsets| - 1 ==> r[j] == offsets[j])
            && (offsets != [] ==> r[|offsets| - 1] == last + p)
            && r[|offsets|] == last + p + ReservedSize(t)
  {
    if offsets != [] {
      var r := AppendWith(pad, offsets, t);
      var n := |offsets| - 1;
      assert r[..n] == offsets[..n];
      forall j | 0 <= j < n ensures r[j] == offsets[j] {
        assert r[j] == r[..n][j];
      }
    }
  }

  /** The slot end offsets after appending the slots of types `ts` one by one
      to an empty buffer under the padding rule `pad`. */
  function PackWith(pad: (nat, nat) -> nat, ts: seq<MTLDataType>): (offsets: seq<nat>)
    requires AllSupported(ts)
    ensures |offsets| == |ts|
    decreases |ts|
  {
    if ts == [] then [] else AppendWith(pad, PackWith(pad, ts[..|ts| - 1]), ts[|ts| - 1])
  }

  /** The slot end offsets the settings record for slots of types `ts`. */
  function PackOffsets(ts: seq<MTLDataType>): (offsets: seq<nat>)
    requires AllSupported(ts)
    ensures |offsets| == |ts|
  {
    PackWith(Padding, ts)
  }

  /** Where slot `i` starts: 0 for the first slot, otherwise the end offset of
      the slot before it. */
  function SlotStart(offsets: seq<nat>, i: nat): nat
    requires i <= |offsets|
  {
    if i == 0 then 0 else offsets[i - 1]
  }

  /** The sum of the reserved sizes of `ts`, without padding. */
  function TotalReserved(ts: seq<MTLDataType>): nat
    requires AllSupported(ts)
    decreases |ts|
  {
    if ts == [] then 0 else TotalReserved(ts[..|ts| - 1]) + ReservedSize(ts[|ts| - 1])
  }

  /** Appending one more slot only extends the layout of the earlier slots. */
  lemma AppendSlotWith(pad: (nat, nat) -> nat, ts: seq<MTLDataType>, t: MTLDataType)
    requires AllSupported(ts) && Supported(t)
    ensures AllSupported(ts + [t])
    ensures PackWith(pad, ts + [t]) == AppendWith(pad, PackWith(pad, ts), t)
  {
    assert (ts + [t])[..|ts|] == ts;
  }

  /** Under any padding rule, the last slot spans exactly its reserved size
      when the rule pads nothing after offset 0. */
  lemma LastSlotSpanWith(pad: (nat, nat) -> nat, ts: seq<MTLDataType>)
    requires AllSupported(ts) && ts != []
    requires forall size :: pad(size, 0) == 0
    ensures var offsets := PackWith(pad, ts);
            offsets[|ts| - 1] == SlotStart(offsets, |ts| - 1) + ReservedSize(ts[|ts| - 1])
  {
    var n := |ts| - 1;
    var init := ts[..n];
    assert AllSupported(init);
    var t := ts[n];
    var size := ReservedSize(t);
    var prev := PackWith(pad, init);
    var last := LastOffset(prev);
    var p := pad(size, last);
    var offsets := PackWith(pad, ts);
    AppendWithAt(pad, prev, t);
    assert offsets[n] == last + p + size;
    if n == 0 {
      assert last == 0;
      assert p == 0;
    } else {
      assert offsets[n - 1] == last + p;
    }
  }

  /** In the end offsets `offsets` of slots of types `ts`, slot i spans its
      reserved size plus the padding that the slot after it (if any)
      inserted. */
  ghost predicate SpansAt(pad: (nat, nat) -> nat, offsets: seq<nat>, ts: seq<MTLDataType>, i: nat)
    requires AllSupported(ts) && i < |ts| && i < |offsets|
  {
    var end := SlotStart(offsets, i) + ReservedSize(ts[i]);
    offsets[i] == end + if i + 1 < |ts| then pad(ReservedSize(ts[i + 1]), end) else 0
  }

  /** Under any padding rule that pads nothing after offset 0, each slot spans
      its reserved size plus the padding that the slot after it inserted. */
  lemma {:induction false} SlotSpanWith(pad: (nat, nat) -> nat, ts: seq<MTLDataType>, i: nat)
    requires AllSupported(ts) && i < |ts|
    requires forall size :: pad(size, 0) == 0
    ensures SpansAt(pad, PackWith(pad, ts), ts, i)
    decreases |ts|
  {
    var n := |ts| - 1;
    if i == n {
      LastSlotSpanWith(pad, ts);
    } else {
      var init := ts[..n];
      assert AllSupported(init);
      var prev := PackWith(pad, init);
      if i + 1 < n {
        SlotSpanWith(pad, init, i);
      } else {
        LastSlotSpanWith(pad, init);
      }
      SpanExtends(pad, ts, i, PackWith(pad, ts), prev);
    }
  }

  /** Appending a last slot keeps the span of every earlier slot i: slot i
      spanned its reserved size in `prev` (plus its successor's padding when
      it was not the last slot), and it does so in `offsets` too. */
  lemma SpanExtends(pad: (nat, nat) -> nat, ts: seq<MTLDataType>, i: nat, offsets: seq<nat>, prev: seq<nat>)
    requires AllSupported(ts) && i + 1 < |ts| && |prev| == |ts| - 1
    requires AllSupported(ts[..|ts| - 1])
    requires offsets == AppendWith(pad, prev, ts[|ts| - 1])
    requires i + 2 < |ts| ==> SpansAt(pad, prev, ts[..|ts| - 1], i)
    requires i + 2 == |ts| ==> prev[i] == SlotStart(prev, i) + ReservedSize(ts[..|ts| - 1][i])
    ensures SpansAt(pad, offsets, ts, i)
  {
    var n := |ts| - 1;
    var init := ts[..n];
    assert init[i] == ts[i];
    if i + 1 < n {
      assert init[i + 1] == ts[i + 1];
    }
    SpanAfterAppend(pad, prev, ts[n], i, ReservedSize(ts[i]), ReservedSize(ts[i + 1]));
  }

  /** One step of SlotSpanWith on plain offsets: appending a slot of type `t`
      to `prev` moves only the end of the last slot, by the padding `t`
      needs, so slot i keeps its start and then spans `size` elements plus
      the padding its successor (of `nextSize` elements) inserted. */
  lemma SpanAfterAppend(pad: (nat, nat) -> nat, prev: seq<nat>, t: MTLDataType, i: nat, size: nat, nextSize: nat)
    requires Supported(t) && i < |prev|
    requires i + 1 == |prev| ==> nextSize == ReservedSize(t)
    requires var end := SlotStart(prev, i) + size;
             prev[i] == end + if i + 1 < |prev| then pad(nextSize, end) else 0
    ensures var offsets := AppendWith(pad, prev, t);
            var end := SlotStart(offsets, i) + size;
            i < |offsets| && offsets[i] == end + pad(nextSize, end)
  {
    AppendWithAt(pad, prev, t);
  }

  /** Each slot spans its reserved size plus the padding that the slot after
      it (if any) inserted: slot i ends at its start plus its reserved size,
      plus Padding(next size, that end). This determines the whole layout. */
  lemma SlotSpan(ts: seq<MTLDataType>, i: nat)
    requires AllSupported(ts) && i < |ts|
    ensures var offsets := PackOffsets(ts);
            var end := SlotStart(offsets, i) + ReservedSize(ts[i]);
            offsets[i] == end + if i + 1 < |ts| then Padding(ReservedSize(ts[i + 1]), end) else 0
  {
    forall size: nat ensures Padding(size, 0) == 0 {
      NoPaddingAfterAligned(size, 0);
    }
    SlotSpanWith(Padding, ts, i);
  }

  /** Every slot occupies at least its reserved size, so the end offsets
      strictly increase and the last one bounds all the others. */
  lemma OffsetsIncrease(ts: seq<MTLDataType>)
    requires AllSupported(ts)
    ensures var offsets := PackOffsets(ts);
            forall i, j :: 0 <= i < j < |offsets| ==> offsets[i] < offsets[j]
  {
    var offsets := PackOffsets(ts);
    forall i | 0 < i < |offsets|
      ensures offsets[i - 1] < offsets[i]
    {
      SlotSpan(ts, i);
      assert SlotStart(offsets, i) == offsets[i - 1];
    }
    StepsIncrease(offsets);
  }

  /** A sequence that increases at every step increases overall. */
  lemma {:induction false} StepsIncrease(s: seq<nat>)
    requires forall i :: 0 < i < |s| ==> s[i - 1] < s[i]
    ensures forall i, j :: 0 <= i < j < |s| ==> s[i] < s[j]
    decreases |s|
  {
    if |s| > 1 {
      var init := s[..|s| - 1];
      StepsIncrease(init);
      forall i, j | 0 <= i < j < |s|
        ensures s[i] < s[j]
      {
        if j < |s| - 1 {
          assert s[i] == init[i] && s[j] == init[j];
        } else if i < j - 1 {
          assert s[i] == init[i] && s[j - 1] == init[j - 1];
        }
      }
    }
  }

  /** A slot in front of which padding was inserted ends on a multiple of 4,
      and keeps that end offset: the slot after it never pads, since its
      predecessor ends aligned. (The padding itself is credited to the slot
      before, which need not end aligned.) */
  lemma PaddedSlotEndsAligned(ts: seq<MTLDataType>, i: nat)
    requires AllSupported(ts) && 0 < i < |ts|
    requires Padding(ReservedSize(ts[i]), SlotStart(PackOffsets(ts), i - 1) + ReservedSize(ts[i - 1])) > 0
    ensures PackOffsets(ts)[i] % 4 == 0
  {
    var offsets := PackOffsets(ts);
    var prevEnd := SlotStart(offsets, i - 1) + ReservedSize(ts[i - 1]);
    SlotSpan(ts, i - 1);
    PaddingAligns(ReservedSize(ts[i]), prevEnd, offsets[i - 1]);
    AlignedEndIsKept(ts, i, offsets[i - 1] + ReservedSize(ts[i]));
  }

  /** A slot whose reserved storage ends on a multiple of 4 gets no padding
      from the slot after it. */
  lemma AlignedEndIsKept(ts: seq<MTLDataType>, i: nat, end: nat)
    requires AllSupported(ts) && i < |ts|
    requires end == SlotStart(PackOffsets(ts), i) + ReservedSize(ts[i]) && end % 4 == 0
    ensures PackOffsets(ts)[i] == end
  {
    SlotSpan(ts, i);
    if i + 1 < |ts| {
      NoPaddingAfterAligned(ReservedSize(ts[i + 1]), end);
    }
  }

  /** Padding, when inserted, makes the new slot end on a multiple of 4. */
  lemma PaddingAligns(size: nat, lastOffset: nat, start: nat)
    requires Padding(size, lastOffset) > 0 && start == lastOffset + Padding(size, lastOffset)
    ensures (start + size) % 4 == 0
  {
  }

  /** No padding follows a slot that ends on a multiple of 4. */
  lemma NoPaddingAfterAligned(size: nat, lastOffset: nat)
    requires lastOffset % 4 == 0
    ensures Padding(size, lastOffset) == 0
  {
  }

  /** Whether element `n` is a suitable start for a slot of type `t`: on
      the type's natural byte boundary, which is an even element for float2
      and a multiple of 4 for float3, float4 and the matrices. */
  predicate StartsOnBoundary(n: nat, t: MTLDataType) {
    match t
    case Float => true
    case Float2 => n % 4 == 0 || n % 4 == 2
    case _ => n % 4 == 0
  }

  /** After any slot end, the padding in front of a slot whose reserved size
      is a multiple of 4 moves its start to a multiple of 4. */
  lemma WideStartAligned(size: nat, lastOffset: nat)
    requires size > 0 && size % 4 == 0
    ensures (lastOffset + Padding(size, lastOffset)) % 4 == 0
  {
    var q, r, k := lastOffset / 4, lastOffset % 4, size / 4;
    assert lastOffset == 4 * q + r && size == 4 * k;
    if r != 0 {
      assert lastOffset + size == 4 * (q + k) + r;
      assert (lastOffset + size) % 4 == r;
      assert lastOffset + Padding(size, lastOffset) == 4 * (q + 1);
    }
  }

  /** After any slot end, the padding in front of a float2 slot moves its
      start to an even element. */
  lemma PairStartAligned(lastOffset: nat)
    ensures var start := lastOffset + Padding(2, lastOffset);
            start % 4 == 0 || start % 4 == 2
  {
    if lastOffset % 4 == 1 {
      assert (lastOffset + 2) % 4 == 3;
      assert (lastOffset + 1) % 4 == 2;
    } else if lastOffset % 4 == 3 {
      assert (lastOffset + 2) % 4 == 1;
      assert (lastOffset + 3) % 4 == 2;
    }
  }

  /** After any slot end, the padding in front of a slot moves its start to a
      suitable boundary for its type. */
  lemma PaddedStartAligned(t: MTLDataType, lastOffset: nat)
    requires Supported(t)
    ensures StartsOnBoundary(lastOffset + Padding(ReservedSize(t), lastOffset), t)
  {
    match t
    case Float =>
    case Float2 => PairStartAligned(lastOffset);
    case Float3 | Float4 | Float3x3 | Float4x4 => WideStartAligned(ReservedSize(t), lastOffset);
  }

  /** Although the rule only aims at aligning the end of a padded slot,
      every slot starts on a suitable boundary for its type. */
  lemma StartsAligned(ts: seq<MTLDataType>, i: nat)
    requires AllSupported(ts) && i < |ts|
    ensures StartsOnBoundary(SlotStart(PackOffsets(ts), i), ts[i])
  {
    if i > 0 {
      var offsets := PackOffsets(ts);
      SlotSpan(ts, i - 1);
      PaddedStartAligned(ts[i], SlotStart(offsets, i - 1) + ReservedSize(ts[i - 1]));
    }
  }

  /** The buffer holds every slot's reserved storage plus at most three
      padding elements per slot. */
  lemma {:induction false} TotalBounds(ts: seq<MTLDataType>)
    requires AllSupported(ts)
    ensures TotalReserved(ts) <= LastOffset(PackOffsets(ts)) <= TotalReserved(ts) + 3 * |ts|
    decreases |ts|
  {
    if ts != [] {
      var init := ts[..|ts| - 1];
      assert AllSupported(init);
      TotalBounds(init);
    }
  }

  /** Appending a slot to the settings' layout: the previous last end offset
      absorbs the padding and the new slot's end follows its reserved size. */
  lemma AppendSlot(ts: seq<MTLDataType>, t: MTLDataType)
    requires AllSupported(ts) && Supported(t)
    ensures AllSupported(ts + [t])
    ensures PackOffsets(ts + [t]) == AppendWith(Padding, PackOffsets(ts), t)
  {
    AppendSlotWith(Padding, ts, t);
  }

  /** The layout rule aligns the END of a padded slot, not its start: after
      three floats, a float2 is placed at element 6 and ends at 8. */
  lemma Float2AfterThreeFloats()
    ensures PackOffsets([Float, Float, Float, Float2]) == [1, 2, 6, 8]
  {
    PackStep([], Float, [Float], [], 0, [1]);
    PackStep([Float], Float, [Float, Float], [1], 0, [1, 2]);
    PackStep([Float, Float], Float, [Float, Float, Float], [1, 2], 0, [1, 2, 3]);
    PackStep([Float, Float, Float], Float2, [Float, Float, Float, Float2], [1, 2, 3], 3, [1, 2, 6, 8]);
  }

  /** Two float2 slots fill one 4-float group exactly, so a following float4
      needs no padding. */
  lemma Float2PairThenFloat4()
    ensures PackOffsets([Float2, Float2, Float4]) == [2, 4, 8]
  {
    PackStep([], Float2, [Float2], [], 0, [2]);
    PackStep([Float2], Float2, [Float2, Float2], [2], 0, [2, 4]);
    PackStep([Float2, Float2], Float4, [Float2, Float2, Float4], [2, 4], 0, [2, 4, 8]);
  }

  /** A float3x3 after a float starts at element 4; the float after it needs
      no padding. */
  lemma Float3x3AfterFloat()
    ensures PackOffsets([Float, Float3x3, Float]) == [4, 16, 17]
  {
    PackStep([], Float, [Float], [], 0, [1]);
    PackStep([Float], Float3x3, [Float, Float3x3], [1], 3, [4, 16]);
    PackStep([Float, Float3x3], Float, [Float, Float3x3, Float], [4, 16], 0, [4, 16, 17]);
  }

  /** One slot of a worked layout: if `ts` packs to `before` and appending a
      slot of type `t` to `before` gives `after`, then `ts + [t]` packs to
      `after`. */
  lemma PackStep(ts: seq<MTLDataType>, t: MTLDataType, extended: seq<MTLDataType>, before: seq<nat>, p: nat, after: seq<nat>)
    requires AllSupported(ts) && Supported(t) && extended == ts + [t] && PackOffsets(ts) == before
    requires p == Padding(ReservedSize(t), LastOffset(before))
    requires after == SetLast(before, LastOffset(before) + p) + [LastOffset(before) + p + ReservedSize(t)]
    ensures AllSupported(extended) && PackOffsets(extended) == after
  {
    AppendSlot(ts, t);
  }

  // ---------------------------------------------------------------------
  // Ordering the declared uniforms by slot index (the first loop of `init`)
  // ---------------------------------------------------------------------

  /** The type recorded for slot `i` after visiting the keys of `table` in
      `order`: the type of the LAST visited key whose slot index is `i`, or
      `Float` (the initial fill) when no visited key claims `i`. */
  function TypeAt(table: map<string, (int, MTLDataType)>, order: seq<string>, i: int): MTLDataType
    requires forall k :: k in order ==> k in table
    decreases |order|
  {
    if order == [] then Float
    else
      var k := order[|order| - 1];
      if table[k].0 == i then table[k].1 else TypeAt(table, order[..|order| - 1], i)
  }

  /** No two names share a slot index. */
  predicate UniqueIndices(table: map<string, (int, MTLDataType)>) {
    forall k1, k2 :: k1 in table && k2 in table && k1 != k2 ==> table[k1].0 != table[k2].0
  }

  /** With unique slot indices, every visited name's slot gets that name's type. */
  lemma {:induction false} TypeAtClaimed(table: map<string, (int, MTLDataType)>, order: seq<string>, k: string)
    requires forall k' :: k' in order ==> k' in table
    requires UniqueIndices(table) && k in order
    ensures TypeAt(table, order, table[k].0) == table[k].1
    decreases |order|
  {
    var last := order[|order| - 1];
    if last != k {
      var init := order[..|order| - 1];
      assert order == init + [last];
      assert k in init;
      TypeAtClaimed(table, init, k);
    }
  }

  /** A slot that no visited name claims keeps the initial `Float`. */
  lemma {:induction false} TypeAtUnclaimed(table: map<string, (int, MTLDataType)>, order: seq<string>, i: int)
    requires forall k :: k in order ==> k in table
    requires forall k :: k in order ==> table[k].0 != i
    ensures TypeAt(table, order, i) == Float
    decreases |order|
  {
    if order != [] {
      var init := order[..|order| - 1];
      assert forall k :: k in init ==> k in order;
      TypeAtUnclaimed(table, init, i);
    }
  }

  /** With unique slot indices, the resulting slot types do not depend on the
      order in which the names are visited. */
  lemma OrderIndependent(table: map<string, (int, MTLDataType)>, order1: seq<string>, order2: seq<string>, i: int)
    requires forall k :: k in order1 <==> k in table
    requires forall k :: k in order2 <==> k in table
    requires UniqueIndices(table)
    ensures TypeAt(table, order1, i) == TypeAt(table, order2, i)
  {
    if k :| k in table && table[k].0 == i {
      TypeAtClaimed(table, order1, k);
      TypeAtClaimed(table, order2, k);
    } else {
      TypeAtUnclaimed(table, order1, i);
      TypeAtUnclaimed(table, order2, i);
    }
  }

  /** Every name's slot index lies in [0, N) for a table of N names. */
  predicate IndicesInRange(table: map<string, (int, MTLDataType)>) {
    forall k :: k in table ==> 0 <= table[k].0 < |table|
  }

  /** The slot types in slot order, as `init` assembles them from the table
      visited in `order`. */
  function OrderedTypes(table: map<string, (int, MTLDataType)>, order: seq<string>): (types: seq<MTLDataType>)
    requires forall k :: k in order ==> k in table
    ensures |types| == |table|
  {
    seq(|table|, i => TypeAt(table, order, i))
  }
}
