/** The AV1 translator (src/codec/av1.cc): every picture is held back until its successor tells which slots it
    refreshed. What a slot's order hint and motion parameters are is then a matter of history. */
module Av1HoldBack {
  import opened Outcome
  import opened Bits
  import opened BitIO
  import opened BitReading
  import opened Av1Motion

  const SLOTS: nat := 8
  const REFS: nat := 7
  const KEY_FRAME: nat := 0
  const INTRA_ONLY_FRAME: nat := 2
  const PRIMARY_REF_NONE: nat := 7
  const INVALID_SURFACE: nat := 0xffff_ffff

  /** VADecPictureParameterBufferAV1 as far as it matters here, with the picture's tile data. */
  datatype Picture = Picture(
    frameType: nat, currentFrame: nat, refFrameMap: seq<nat>, orderHint: nat,
    primaryRefFrame: nat, refFrameIdx: seq<nat>, warps: seq<Warp>, hp: bool,
    widthMinus1: nat, heightMinus1: nat, uDcDeltaQ: int, uAcDeltaQ: int, vDcDeltaQ: int, vAcDeltaQ: int,
    surface: nat, data: seq<byte>)
  {
    predicate Intra() {
      frameType == KEY_FRAME || frameType == INTRA_ONLY_FRAME
    }
  }

  /** The array sizes of the VA structure. */
  ghost predicate Shaped(p: Picture) {
    |p.refFrameMap| == SLOTS && |p.refFrameIdx| == REFS && |p.warps| == REFS && p.primaryRefFrame <= PRIMARY_REF_NONE
  }

  /** `p` refreshed the slot, as the next picture sees it. */
  predicate Refreshes(p: Picture, next: Picture, slot: nat) {
    slot < |next.refFrameMap| && next.refFrameMap[slot] == p.currentFrame && p.currentFrame != INVALID_SURFACE
  }

  /** refresh_frame_flags for `p`, one flag per slot. */
  function RefreshFlags(p: Picture, next: Picture, n: nat): (r: seq<bool>)
    ensures |r| == n && forall i :: 0 <= i < n ==> r[i] == Refreshes(p, next, i)
  {
    if n == 0 then [] else RefreshFlags(p, next, n - 1) + [Refreshes(p, next, n - 1)]
  }

  // ---------------------------------------------------------------- sequence parameters

  /** What is written into the sequence header, and what the frame headers that follow it rely on. */
  datatype SequenceState = SequenceState(
    maxWidth: nat, maxHeight: nat, widthBits: nat, heightBits: nat, level: nat, separateUvDeltaQ: bool)

  /** level_for_size: the first level of the table that has room. */
  function LevelForSize(width: nat, height: nat): nat {
    if width <= 2048 && height <= 1152 && width * height <= 147456 then 0
    else if width <= 2816 && height <= 1584 && width * height <= 278784 then 1
    else if width <= 4352 && height <= 2448 && width * height <= 665856 then 4
    else if width <= 5504 && height <= 3096 && width * height <= 1065024 then 5
    else if width <= 6144 && height <= 3456 && width * height <= 2359296 then 8
    else if width <= 8192 && height <= 4352 && width * height <= 8912896 then 12
    else 16
  }

  function SizeBits(size: nat): nat {
    if size < 2 then 1 else CeilLog2(size)
  }

  predicate SeparateUv(p: Picture) {
    p.vDcDeltaQ != p.uDcDeltaQ || p.vAcDeltaQ != p.uAcDeltaQ
  }

  /** av1_sequence_state */
  function StateOf(p: Picture): SequenceState {
    var width, height := p.widthMinus1 + 1, p.heightMinus1 + 1;
    SequenceState(width, height, SizeBits(width), SizeBits(height), LevelForSize(width, height), SeparateUv(p))
  }

  /** The largest picture of a level (table A.3 of the AV1 specification), by seq_level_idx. */
  predicate LevelAllows(level: nat, width: nat, height: nat) {
    match level
    case 0 => width <= 2048 && height <= 1152 && width * height <= 147456
    case 1 => width <= 2816 && height <= 1584 && width * height <= 278784
    case 4 => width <= 4352 && height <= 2448 && width * height <= 665856
    case 5 => width <= 5504 && height <= 3096 && width * height <= 1065024
    case 8 => width <= 6144 && height <= 3456 && width * height <= 2359296
    case 12 => width <= 8192 && height <= 4352 && width * height <= 8912896
    case 16 => width <= 16384 && height <= 8704 && width * height <= 35651584
    case _ => false
  }

  /** The fewest bits, at least one, that hold size - 1. */
  ghost predicate FewestBits(bits: nat, size: nat)
    requires size > 0
  {
    bits >= 1 && size - 1 < Pow2(bits) && (bits > 1 ==> Pow2(bits - 1) <= size - 1)
  }

  /** The sequence parameters fit the picture: its size can be written, and the level is the lowest of the table that
      allows it, or the highest if none does. */
  lemma StateFits(p: Picture)
    ensures var width, height, state := p.widthMinus1 + 1, p.heightMinus1 + 1, StateOf(p);
            && state.maxWidth == width && state.maxHeight == height
            && FewestBits(state.widthBits, width) && FewestBits(state.heightBits, height)
            && (LevelAllows(state.level, width, height) || state.level == 16)
            && (forall level: nat :: level < state.level ==> !LevelAllows(level, width, height))
            && (state.separateUvDeltaQ <==> !(p.uDcDeltaQ == p.vDcDeltaQ && p.uAcDeltaQ == p.vAcDeltaQ))
  {
    hide LevelForSize, LevelAllows, SizeBits, FewestBits;
    LevelIsLowest(p.widthMinus1 + 1, p.heightMinus1 + 1);
    FewBits(p.widthMinus1 + 1);
    FewBits(p.heightMinus1 + 1);
  }

  lemma LevelIsLowest(width: nat, height: nat)
    ensures var lowest := LevelForSize(width, height);
            && (LevelAllows(lowest, width, height) || lowest == 16)
            && forall level: nat :: level < lowest ==> !LevelAllows(level, width, height)
  {
  }

  lemma FewBits(size: nat)
    requires size > 0
    ensures FewestBits(SizeBits(size), size)
  {
    if size >= 2 {
      assert Pow2(0) == 1;
    } else {
      assert Pow2(1) == 2;
    }
    hide Pow2, CeilLog2;
  }

  /** Two pictures give the same sequence parameters exactly if they have the same size and both or neither
      quantise the chroma planes alike. */
  lemma SameState(p: Picture, q: Picture)
    ensures StateOf(p) == StateOf(q) <==>
              p.widthMinus1 == q.widthMinus1 && p.heightMinus1 == q.heightMinus1 && (SeparateUv(p) <==> SeparateUv(q))
  {
  }

  // ---------------------------------------------------------------- refresh flags, unknown for the last picture

  const NONE_REFRESHED: seq<bool> := [false, false, false, false, false, false, false, false]

  // ---------------------------------------------------------------- reference state

  /** What is kept of one slot; `motion` has the parameters of every reference. */
  datatype Slot = Slot(orderHint: nat, motion: seq<seq<int>>, valid: bool)

  const ZERO: seq<int> := [0, 0, 0, 0, 0, 0]

  const ZERO_MOTION: seq<seq<int>> := [ZERO, ZERO, ZERO, ZERO, ZERO, ZERO, ZERO]

  const DEFAULT_MOTION: seq<seq<int>> := [DEFAULT, DEFAULT, DEFAULT, DEFAULT, DEFAULT, DEFAULT, DEFAULT]

  function Parameters(ws: seq<Warp>): (r: seq<seq<int>>)
    ensures |r| == |ws| && forall i :: 0 <= i < |ws| ==> r[i] == ws[i].mat
  {
    if ws == [] then [] else [ws[0].mat] + Parameters(ws[1..])
  }

  const EMPTY_SLOT: Slot := Slot(0, ZERO_MOTION, false)

  /** The parameters that the specification saves with a frame. */
  function SavedMotion(p: Picture): seq<seq<int>> {
    if p.Intra() then DEFAULT_MOTION else Parameters(p.warps)
  }

  function Kept(p: Picture): Slot {
    Slot(p.orderHint, SavedMotion(p), true)
  }

  class References {
    var orderHint: seq<nat>
    var motion: seq<seq<seq<int>>>
    var valid: seq<bool>

    predicate Sized()
      reads this
    {
      |orderHint| == SLOTS && |motion| == SLOTS && |valid| == SLOTS
    }

    /** The state of a slot. */
    function At(slot: nat): Slot
      requires Sized() && slot < SLOTS
      reads this
    {
      Slot(orderHint[slot], motion[slot], valid[slot])
    }

    constructor ()
      ensures Sized() && forall slot :: 0 <= slot < SLOTS ==> At(slot) == EMPTY_SLOT
    {
      orderHint := seq(SLOTS, _ => 0);
      motion := seq(SLOTS, _ => ZERO_MOTION);
      valid := seq(SLOTS, _ => false);
    }

    /** av1_update_reference_gm */
    method UpdateMotion(p: Picture, refresh: seq<bool>)
      requires Sized() && |refresh| == SLOTS && |p.warps| == REFS
      modifies this`motion, this`valid
      ensures Sized()
      ensures forall slot :: 0 <= slot < SLOTS ==>
                At(slot) == if refresh[slot] then Slot(orderHint[slot], SavedMotion(p), true) else old(At(slot))
    {
      for slot := 0 to SLOTS
        invariant Sized()
        invariant forall s :: 0 <= s < slot ==>
                    At(s) == if refresh[s] then Slot(orderHint[s], SavedMotion(p), true) else old(At(s))
        invariant forall s :: slot <= s < SLOTS ==> At(s) == old(At(s))
      {
        if refresh[slot] {
          var saved := SaveMotion(p);
          motion := motion[slot := saved];
          valid := valid[slot := true];
        }
      }
    }

    method SaveMotion(p: Picture) returns (saved: seq<seq<int>>)
      requires |p.warps| == REFS
      ensures saved == SavedMotion(p)
    {
      saved := [];
      var ref := 0;
      while ref < REFS
        invariant 0 <= ref <= REFS && |saved| == ref
        invariant forall i :: 0 <= i < ref ==> saved[i] == if p.Intra() then DEFAULT else p.warps[i].mat
      {
        saved := saved + [if p.Intra() then DEFAULT else p.warps[ref].mat];
        ref := ref + 1;
      }
    }

    method UpdateOrderHints(p: Picture, refresh: seq<bool>)
      requires Sized() && |refresh| == SLOTS
      modifies this`orderHint
      ensures Sized()
      ensures forall slot :: 0 <= slot < SLOTS ==>
                At(slot) == if refresh[slot] then old(At(slot)).(orderHint := p.orderHint) else old(At(slot))
    {
      for slot := 0 to SLOTS
        invariant Sized()
        invariant forall s :: 0 <= s < slot ==>
                    At(s) == if refresh[s] then old(At(s)).(orderHint := p.orderHint) else old(At(s))
        invariant forall s :: slot <= s < SLOTS ==> At(s) == old(At(s))
      {
        if refresh[slot] {
          orderHint := orderHint[slot := p.orderHint];
        }
      }
    }

    /** The first `n` slots. */
    function Snapshot(n: nat): seq<Slot>
      requires Sized() && n <= SLOTS
      reads this
    {
      if n == 0 then [] else Snapshot(n - 1) + [At(n - 1)]
    }

    lemma SnapshotAt(n: nat)
      requires Sized() && n <= SLOTS
      ensures |Snapshot(n)| == n
      ensures forall slot :: 0 <= slot < n ==> Snapshot(n)[slot] == At(slot)
    {
    }
  }

  // ---------------------------------------------------------------- what history says

  /** A slot once the pictures before `k` are built, when picture `k` is known. */
  function SlotAfter(ps: seq<Picture>, k: nat, slot: nat): Slot
    requires k == 0 || k < |ps|
  {
    if k == 0 then EMPTY_SLOT
    else if Refreshes(ps[k - 1], ps[k], slot) then Kept(ps[k - 1])
    else SlotAfter(ps, k - 1, slot)
  }

  /** Picture `i` refreshed the slot, and none after it did. */
  ghost predicate LastToRefresh(ps: seq<Picture>, k: nat, slot: nat, i: nat)
    requires i < k < |ps|
  {
    Refreshes(ps[i], ps[i + 1], slot) && forall j :: i < j < k ==> !Refreshes(ps[j], ps[j + 1], slot)
  }

  lemma {:induction false} SlotIsKept(ps: seq<Picture>, k: nat, slot: nat, i: nat)
    requires i < k < |ps| && LastToRefresh(ps, k, slot, i)
    ensures SlotAfter(ps, k, slot) == Kept(ps[i])
  {
    hide Refreshes, Kept;
    if i < k - 1 {
      SlotIsKept(ps, k - 1, slot, i);
    }
  }

  /** What section 7.20 saves of a picture for reference `ref`: its warp, or the defaults after an intra frame. */
  function SavedWarp(p: Picture, ref: nat): seq<int>
    requires ref < |p.warps|
  {
    if p.frameType == 0 || p.frameType == 2 then [0, 0, 65536, 0, 0, 65536] else p.warps[ref].mat
  }

  /** A slot holds the order hint and the motion of the last picture that refreshed it. */
  lemma SlotHistory(ps: seq<Picture>, k: nat, slot: nat, i: nat)
    requires i < k < |ps| && LastToRefresh(ps, k, slot, i) && Shaped(ps[i])
    ensures var s := SlotAfter(ps, k, slot);
            && s.valid && s.orderHint == ps[i].orderHint && |s.motion| == REFS
            && forall ref :: 0 <= ref < REFS ==> s.motion[ref] == SavedWarp(ps[i], ref)
  {
    SlotIsKept(ps, k, slot, i);
    hide SlotAfter, Refreshes;
  }

  /** A slot that nothing refreshed is empty. */
  lemma {:induction false} SlotUntouched(ps: seq<Picture>, k: nat, slot: nat)
    requires k < |ps| && forall j :: 0 <= j < k ==> !Refreshes(ps[j], ps[j + 1], slot)
    ensures SlotAfter(ps, k, slot) == EMPTY_SLOT
  {
    hide Refreshes, Kept;
    if k > 0 {
      SlotUntouched(ps, k - 1, slot);
    }
  }

  /** The picture whose parameters are the sequence's when picture `k` has been seen. */
  function SequenceOf(ps: seq<Picture>, k: nat): (r: nat)
    requires k < |ps|
    ensures r <= k && (r == 0 || ps[r].frameType == KEY_FRAME)
    ensures forall j :: r < j <= k ==> ps[j].frameType != KEY_FRAME
  {
    if k == 0 || ps[k].frameType == KEY_FRAME then k else SequenceOf(ps, k - 1)
  }

  /** The sequence parameters when picture `k` has been seen. */
  function StateAt(ps: seq<Picture>, k: nat): SequenceState
    requires k < |ps|
  {
    StateOf(ps[SequenceOf(ps, k)])
  }

  /** What a temporal unit is built from. */
  datatype Unit = Unit(
    picture: Picture, sequence: SequenceState, emitSequence: bool, refresh: seq<bool>, slots: seq<Slot>)

  /** The first `n` slots once the pictures before `k` are built. */
  function SlotsAfter(ps: seq<Picture>, k: nat, n: nat): (r: seq<Slot>)
    requires k == 0 || k < |ps|
    ensures |r| == n && forall slot :: 0 <= slot < n ==> r[slot] == SlotAfter(ps, k, slot)
  {
    if n == 0 then [] else SlotsAfter(ps, k, n - 1) + [SlotAfter(ps, k, n - 1)]
  }

  function UnitOf(ps: seq<Picture>, i: nat, seen: nat, refresh: seq<bool>): Unit
    requires i <= seen < |ps|
  {
    Unit(ps[i], StateAt(ps, seen), i == 0 || ps[i].frameType == KEY_FRAME, refresh,
         SlotsAfter(ps, i, SLOTS))
  }

  /** The unit is the picture's, and starts with a sequence header if a new sequence can start there. */
  ghost predicate BuiltFrom(unit: Unit, p: Picture, first: bool) {
    && unit.picture == p && |unit.refresh| == |unit.slots| == SLOTS
    && (unit.emitSequence <==> first || p.frameType == 0)
  }

  /** The unit of picture `i`, built when its successor arrives. */
  function UnitAt(ps: seq<Picture>, i: nat): Unit
    requires i + 1 < |ps|
  {
    UnitOf(ps, i, i + 1, RefreshFlags(ps[i], ps[i + 1], SLOTS))
  }

  lemma UnitFields(ps: seq<Picture>, i: nat)
    requires i + 1 < |ps|
    ensures BuiltFrom(UnitAt(ps, i), ps[i], i == 0)
    ensures UnitAt(ps, i).refresh == RefreshFlags(ps[i], ps[i + 1], SLOTS)
  {
    hide StateAt, SlotsAfter, RefreshFlags;
  }

  /** The unit of the last picture, built when the stream ends. */
  function LastUnit(ps: seq<Picture>): Unit
    requires ps != []
  {
    UnitOf(ps, |ps| - 1, |ps| - 1, NONE_REFRESHED)
  }

  /** A picture's unit is built with the sequence parameters that were in force for the picture exactly if no key
      frame of another size or chroma quantisation follows at once; the last picture's always is. */
  lemma OwnSequence(ps: seq<Picture>, i: nat)
    requires i < |ps|
    ensures i + 1 < |ps| ==>
              (UnitAt(ps, i).sequence == StateAt(ps, i) <==>
                 ps[i + 1].frameType != KEY_FRAME || StateOf(ps[i + 1]) == StateAt(ps, i))
    ensures i + 1 < |ps| && ps[i + 1].frameType == KEY_FRAME ==> UnitAt(ps, i).sequence == StateOf(ps[i + 1])
    ensures LastUnit(ps).sequence == StateAt(ps, |ps| - 1)
  {
    hide SlotsAfter, RefreshFlags, StateOf;
  }

  /** Two key frames of different widths: the first is built, sequence header included, with the width of the
      second. */
  lemma ForeignSequence() returns (ps: seq<Picture>)
    ensures |ps| == 2 && ps[1] == ps[0].(widthMinus1 := 639, currentFrame := 2, surface := 2)
    ensures ps[0].frameType == KEY_FRAME && ps[0].widthMinus1 == 319 && forall i :: 0 <= i < 2 ==> Shaped(ps[i])
    ensures UnitAt(ps, 0).picture == ps[0] && UnitAt(ps, 0).emitSequence
    ensures UnitAt(ps, 0).sequence.maxWidth == 640 && StateAt(ps, 0).maxWidth == 320
  {
    var none, warp := [0, 0, 0, 0, 0, 0, 0], Warp(IDENTITY, DEFAULT);
    var warps := [warp, warp, warp, warp, warp, warp, warp];
    var key := Picture(KEY_FRAME, 1, none + [0], 0, PRIMARY_REF_NONE, none, warps, false, 319, 239, 0, 0, 0, 0, 1, []);
    ps := [key, key.(widthMinus1 := 639, currentFrame := 2, surface := 2)];
    OwnSequence(ps, 0);
  }

  /** More input does not change what has been built. */
  lemma {:induction false} PrefixSlot(ps: seq<Picture>, p: Picture, k: nat, slot: nat)
    requires k == 0 || k < |ps|
    ensures SlotAfter(ps + [p], k, slot) == SlotAfter(ps, k, slot)
  {
    hide Refreshes;
    if k > 0 {
      PrefixSlot(ps, p, k - 1, slot);
    }
  }

  lemma {:induction false} PrefixSequence(ps: seq<Picture>, p: Picture, k: nat)
    requires k < |ps|
    ensures SequenceOf(ps + [p], k) == SequenceOf(ps, k)
  {
    if k > 0 {
      PrefixSequence(ps, p, k - 1);
    }
  }

  lemma PrefixUnit(ps: seq<Picture>, p: Picture, i: nat)
    requires i + 1 < |ps|
    ensures UnitAt(ps + [p], i) == UnitAt(ps, i)
  {
    forall slot | 0 <= slot < SLOTS
      ensures SlotAfter(ps + [p], i, slot) == SlotAfter(ps, i, slot)
    {
      PrefixSlot(ps, p, i, slot);
    }
    PrefixSequence(ps, p, i + 1);
    assert (ps + [p])[i] == ps[i] && (ps + [p])[i + 1] == ps[i + 1];
    assert (ps + [p])[SequenceOf(ps, i + 1)] == ps[SequenceOf(ps, i + 1)];
    hide SlotAfter, RefreshFlags, StateOf;
    assert UnitAt(ps + [p], i).slots == UnitAt(ps, i).slots;
  }

  lemma SameSlots(ps: seq<Picture>, p: Picture, k: nat)
    requires k < |ps|
    ensures SlotsAfter(ps + [p], k, SLOTS) == SlotsAfter(ps, k, SLOTS)
    ensures forall slot :: 0 <= slot < SLOTS ==> SlotAfter(ps + [p], k, slot) == SlotAfter(ps, k, slot)
  {
    forall slot | 0 <= slot < SLOTS
      ensures SlotAfter(ps + [p], k, slot) == SlotAfter(ps, k, slot)
    {
      PrefixSlot(ps, p, k, slot);
    }
    hide SlotAfter;
    assert SlotsAfter(ps + [p], k, SLOTS) == SlotsAfter(ps, k, SLOTS);
  }

  lemma NextSequence(ps: seq<Picture>, p: Picture)
    ensures SequenceOf(ps + [p], |ps|) == if ps == []
            || p.frameType == KEY_FRAME then |ps| else SequenceOf(ps, |ps| - 1)
  {
    if ps != [] {
      PrefixSequence(ps, p, |ps| - 1);
    }
  }

  lemma EarlierUnits(ps: seq<Picture>, p: Picture)
    ensures forall i :: 0 <= i < |ps| - 1 ==> UnitAt(ps + [p], i) == UnitAt(ps, i)
  {
    forall i | 0 <= i < |ps| - 1
      ensures UnitAt(ps + [p], i) == UnitAt(ps, i)
    {
      PrefixUnit(ps, p, i);
    }
  }

  lemma NothingBuilt(ps: seq<Picture>)
    ensures forall slot :: 0 <= slot < SLOTS ==> SlotAfter(ps, 0, slot) == EMPTY_SLOT
  {
  }

  // ---------------------------------------------------------------- the translator

  datatype Output = Deferred | Released(unit: Unit, surface: nat, sequenceStart: bool)

  class AV1 {
    const references: References
    var sequence: SequenceState
    var seenSequence: bool
    var emitSequenceHeader: bool
    var held: bool
    var heldPicture: Picture
    var heldEmits: bool
    var heldSequenceStart: bool

    /** The pictures translated, and the units built, since the beginning; nothing is claimed once a unit
        has been rejected. */
    ghost var input: seq<Picture>
    ghost var released: seq<Unit>
    ghost var rejected: bool
    ghost var flushed: bool

    ghost predicate AllShaped()
      reads this`input
    {
      forall i :: 0 <= i < |input| ==> Shaped(input[i])
    }

    /** The fields say what the last picture was. */
    ghost predicate Holds()
      requires AllShaped()
      reads this, references
    {
      && held == (|input| > 0 && !flushed) && seenSequence == (|input| > 0) && !emitSequenceHeader
      && (|input| > 0 ==> sequence == StateAt(input, |input| - 1))
      && (held ==>
            && heldPicture == input[|input| - 1]
            && heldEmits == (|input| == 1 || heldPicture.frameType == KEY_FRAME)
            && heldSequenceStart == (heldPicture.frameType == KEY_FRAME))
    }

    /** The reference state is that of every picture but the one held. */
    ghost predicate Remembers()
      requires AllShaped() && references.Sized()
      reads this, references
    {
      forall slot :: 0 <= slot < SLOTS ==>
        references.At(slot) == SlotAfter(input, if input == [] then 0 else |input| - 1, slot)
    }

    /** Units come out in order, one picture late. */
    ghost predicate InOrder()
      requires AllShaped()
      reads this
    {
      && |released| == (if input == [] then 0 else if flushed then |input| else |input| - 1)
      && (forall i :: 0 <= i < |input| - 1 ==> released[i] == UnitAt(input, i))
      && (flushed && input != [] ==> released[|input| - 1] == LastUnit(input))
    }

    ghost predicate Valid()
      reads this, references
    {
      references.Sized() && (!rejected ==> AllShaped() && Holds() && Remembers() && InOrder())
    }

    constructor ()
      ensures Valid() && !rejected && !flushed && input == [] && released == [] && fresh(references)
    {
      references := new References();
      seenSequence, emitSequenceHeader, held, heldEmits, heldSequenceStart := false, false, false, false, false;
      sequence := *;
      heldPicture := *;
      input, released, rejected, flushed := [], [], false, false;
    }

    /** Builds the unit of the held picture, unless the writer rejects it, and updates the slots. */
    method Build(refresh: seq<bool>) returns (r: Result<Output>)
      requires references.Sized() && |refresh| == SLOTS && |heldPicture.warps| == REFS
      modifies this`held, this`rejected, this`released, references
      ensures !held && references.Sized()
      ensures r.Err? ==> rejected
      ensures r.Ok? ==> rejected == old(rejected)
      ensures r.Ok? ==> forall slot :: 0 <= slot < SLOTS ==>
                references.At(slot) == if refresh[slot] then Kept(heldPicture) else old(references.At(slot))
      ensures r.Ok? ==>
                var unit := Unit(heldPicture, sequence, heldEmits, refresh, old(references.Snapshot(SLOTS)));
                r.value == Released(unit, heldPicture.surface, heldSequenceStart) && released == old(released) + [unit]
    {
      hide SavedMotion;
      var unit := Unit(heldPicture, sequence, heldEmits, refresh, references.Snapshot(SLOTS));
      var built: bool := *;
      held := false;
      if !built {
        rejected := true;
        return Err(Unimplemented);
      }
      references.UpdateOrderHints(heldPicture, refresh);
      references.UpdateMotion(heldPicture, refresh);
      released := released + [unit];
      r := Ok(Released(unit, heldPicture.surface, heldSequenceStart));
    }

    /** Slots that hold the held picture's surface when the next picture arrives. */
    method DeriveRefresh(next: Picture) returns (refresh: seq<bool>)
      requires |next.refFrameMap| == SLOTS
      ensures refresh == RefreshFlags(heldPicture, next, SLOTS)
    {
      refresh := [];
      for slot := 0 to SLOTS
        invariant refresh == RefreshFlags(heldPicture, next, slot)
      {
        refresh := refresh + [next.refFrameMap[slot] == heldPicture.currentFrame
            && heldPicture.currentFrame != INVALID_SURFACE];
      }
    }

    lemma SnapshotIs(k: nat)
      requires references.Sized() && (k == 0 || k < |input|)
      requires forall slot :: 0 <= slot < SLOTS ==> references.At(slot) == SlotAfter(input, k, slot)
      ensures references.Snapshot(SLOTS) == SlotsAfter(input, k, SLOTS)
    {
      references.SnapshotAt(SLOTS);
      hide SlotsAfter, SlotAfter;
    }

    /** The held picture comes out when `p` arrives. */
    method ReleaseHeld(p: Picture) returns (r: Result<Output>)
      requires references.Sized() && !rejected && !flushed && input != [] && AllShaped() && Remembers() && Shaped(p)
      requires sequence == StateAt(input + [p], |input|)
      requires heldPicture == input[|input| - 1] && heldEmits == (|input| == 1 || heldPicture.frameType == KEY_FRAME)
      modifies this`held, this`rejected, this`released, references
      ensures references.Sized() && (r.Err? ==> rejected) && !held
      ensures r.Ok? ==>
                var k, all := |input| - 1, input + [p];
                && !rejected && released == old(released) + [UnitAt(all, k)]
                && r.value == Released(UnitAt(all, k), heldPicture.surface, heldSequenceStart)
                && forall slot :: 0 <= slot < SLOTS ==> references.At(slot) == SlotAfter(all, k + 1, slot)
    {
      hide Refreshes, Kept, References.Snapshot;
      ghost var k, all := |input| - 1, input + [p];
      var refresh := DeriveRefresh(p);
      SnapshotIs(k);
      assert all[k] == input[k];
      SameSlots(input, p, k);
      r := Build(refresh);
    }

    /** A key frame, or the first picture, sets the sequence parameters. */
    method NoteSequence(p: Picture) returns (keyFrame: bool)
      requires !rejected && !flushed && AllShaped() && Holds()
      modifies this`sequence, this`seenSequence, this`emitSequenceHeader
      ensures keyFrame == (p.frameType == KEY_FRAME) && seenSequence
      ensures emitSequenceHeader == (input == [] || keyFrame)
      ensures sequence == StateAt(input + [p], |input|)
    {
      hide SequenceOf, StateOf;
      keyFrame := p.frameType == KEY_FRAME;
      NextSequence(input, p);
      if !seenSequence || keyFrame {
        sequence := StateOf(p);
        seenSequence := true;
        emitSequenceHeader := true;
      }
    }

    /** Releases the picture before this one, if there is one, and holds this one. */
    method Translate(p: Picture) returns (r: Result<Output>)
      requires Valid() && Shaped(p) && !rejected && !flushed
      modifies this, references
      ensures Valid() && !flushed
      ensures r.Err? ==> rejected
      ensures r.Ok? ==> !rejected && input == old(input) + [p]
      ensures r.Ok? && old(input) == [] ==> r.value == Deferred && released == old(released)
      ensures r.Ok? && old(input) != [] ==>
                var k := |old(input)| - 1;
                && released == old(released) + [UnitAt(input, k)]
                && r.value == Released(UnitAt(input, k), input[k].surface, input[k].frameType == KEY_FRAME)
                && BuiltFrom(r.value.unit, input[k], k == 0)
                && forall slot :: 0 <= slot < SLOTS ==>
                     (r.value.unit.refresh[slot] <==>
                        p.refFrameMap[slot] == input[k].currentFrame && input[k].currentFrame != 0xffff_ffff)
    {
      hide Kept, RefreshFlags, UnitAt, SlotAfter, StateAt, LastUnit, References.Snapshot;
      var keyFrame := NoteSequence(p);
      EarlierUnits(input, p);
      NothingBuilt(input);
      NothingBuilt(input + [p]);
      r := Ok(Deferred);
      if held {
        r := ReleaseHeld(p);
        if r.Err? {
          return;
        }
        UnitFields(input + [p], |input| - 1);
        assert forall slot :: 0 <= slot < SLOTS ==>
            (RefreshFlags(heldPicture, p, SLOTS)[slot] <==> Refreshes(heldPicture, p, slot));
      }
      Hold(p, keyFrame);
    }

    method Hold(p: Picture, keyFrame: bool)
      requires references.Sized() && !rejected && !flushed && AllShaped() && Shaped(p) && seenSequence
      requires keyFrame == (p.frameType == KEY_FRAME) && emitSequenceHeader == (input == [] || keyFrame)
      requires sequence == StateAt(input + [p], |input|)
      requires forall slot :: 0 <= slot < SLOTS ==> references.At(slot) == SlotAfter(input + [p], |input|, slot)
      requires |released| == |input| && forall i :: 0 <= i < |input| ==> released[i] == UnitAt(input + [p], i)
      modifies this`held, this`heldPicture, this`heldEmits, this`emitSequenceHeader, this`heldSequenceStart, this`input
      ensures Valid() && input == old(input) + [p]
    {
      hide Refreshes, Kept, RefreshFlags, UnitAt, SlotAfter, StateAt, LastUnit;
      held := true;
      heldPicture := p;
      heldEmits := emitSequenceHeader;
      emitSequenceHeader := false;
      heldSequenceStart := keyFrame;
      input := input + [p];
    }

    /** Ends the stream: the last picture is built, and no slot needs to survive it. */
    method Flush() returns (r: Result<Output>)
      requires Valid() && !rejected && !flushed
      modifies this, references
      ensures Valid() && input == old(input)
      ensures r.Err? ==> rejected
      ensures r.Ok? ==> !rejected && flushed && |released| == |input|
      ensures r.Ok? && input != [] ==>
                && r.value == Released(LastUnit(input), input[|input| - 1].surface,
                    input[|input| - 1].frameType == KEY_FRAME)
                && BuiltFrom(r.value.unit, input[|input| - 1], |input| == 1)
                && forall slot :: 0 <= slot < SLOTS ==> !r.value.unit.refresh[slot]
    {
      hide Refreshes, Kept, References.Snapshot, SlotAfter, UnitAt;
      if !held {
        flushed := true;
        return Ok(Deferred);
      }
      SnapshotIs(|input| - 1);
      r := Build(NONE_REFRESHED);
      flushed := true;
    }

    /** After an error-free stream the units are those of the pictures, in order, each once. */
    lemma EachOnce()
      requires Valid() && !rejected && flushed
      ensures |released| == |input| && forall i :: 0 <= i < |input| ==> released[i].picture == input[i]
    {
      hide UnitAt, LastUnit, SlotAfter, Kept, References.Snapshot;
      forall i | 0 <= i < |input|
        ensures released[i].picture == input[i]
      {
        UnitPicture(input, i);
      }
    }
  }

  lemma UnitPicture(ps: seq<Picture>, i: nat)
    requires i < |ps|
    ensures i + 1 < |ps| ==> UnitAt(ps, i).picture == ps[i]
    ensures i + 1 == |ps| ==> LastUnit(ps).picture == ps[i]
  {
  }

  // ---------------------------------------------------------------- motion across frames

  /** PrevGmParams of reference `ref`: what the primary reference's slot saved, or the defaults. */
  function PreviousMotion(p: Picture, slots: seq<Slot>, ref: nat): seq<int>
    requires Shaped(p) && SlotsSized(slots) && ref < REFS
  {
    if p.primaryRefFrame == PRIMARY_REF_NONE then DEFAULT
    else
      var slot := p.refFrameIdx[p.primaryRefFrame];
      if slot < SLOTS && slots[slot].valid then slots[slot].motion[ref] else DEFAULT
  }

  predicate SlotsSized(slots: seq<Slot>) {
    |slots| == SLOTS && forall i :: 0 <= i < SLOTS ==> |slots[i].motion| == REFS
  }

  function AllPrevious(p: Picture, slots: seq<Slot>, n: nat): (r: seq<seq<int>>)
    requires Shaped(p) && SlotsSized(slots) && n <= REFS
    ensures |r| == n && forall ref :: 0 <= ref < n ==> r[ref] == PreviousMotion(p, slots, ref)
  {
    if n == 0 then [] else AllPrevious(p, slots, n - 1) + [PreviousMotion(p, slots, n - 1)]
  }

  /** Pictures of a stream that a decoder has parsed. */
  ghost predicate Parsed(p: Picture) {
    Shaped(p) && forall i :: 0 <= i < REFS ==> Decodable(p.warps[i], p.hp)
  }

  ghost predicate SlotSane(s: Slot) {
    |s.motion| == REFS && (s.valid ==> forall ref :: 0 <= ref < REFS ==> Sane(s.motion[ref]))
  }

  lemma KeptIsSane(p: Picture)
    requires Parsed(p)
    ensures SlotSane(Kept(p))
  {
    DefaultIsSane();
    hide Sane, Decodable;
    forall ref | 0 <= ref < REFS
      ensures Sane(Kept(p).motion[ref])
    {
      DecodableIsSane(p.warps[ref], p.hp);
    }
  }

  lemma {:induction false} SlotsStaySane(ps: seq<Picture>, k: nat, slot: nat)
    requires (k == 0 || k < |ps|) && forall i :: 0 <= i < |ps| ==> Parsed(ps[i])
    ensures SlotSane(SlotAfter(ps, k, slot))
  {
    hide Refreshes, Kept, SlotSane, Parsed;
    if k == 0 {
      EmptyIsSane();
    } else {
      SlotsStaySane(ps, k - 1, slot);
      KeptIsSane(ps[k - 1]);
    }
  }

  lemma EmptyIsSane()
    ensures SlotSane(EMPTY_SLOT)
  {
  }

  lemma PreviousIsSane(p: Picture, slots: seq<Slot>, ref: nat)
    requires Shaped(p) && |slots| == SLOTS && ref < REFS && forall i :: 0 <= i < SLOTS ==> SlotSane(slots[i])
    ensures SlotsSized(slots) && Sane(PreviousMotion(p, slots, ref))
  {
    DefaultIsSane();
    hide Sane;
  }

  /** Across any history of frames, the reference a parameter is coded against lands in the range of that
      parameter, even when it was saved by a frame of another type or precision. */
  lemma HistoryReferencesInRange(ps: seq<Picture>, k: nat, ref: nat, idx: nat)
    requires k < |ps| && ref < REFS && idx < 6 && forall i :: 0 <= i < |ps| ==> Parsed(ps[i])
    ensures var p, slots := ps[k], SlotsAfter(ps, k, SLOTS);
            && Parsed(p) && SlotsSized(slots) && |PreviousMotion(p, slots, ref)| == 6
            && var kind, hp := p.warps[ref].kind, p.hp;
               -Limit(kind, idx, hp) <= Reference(kind, idx, hp, PreviousMotion(p, slots, ref)[idx]) <= Limit(kind,
                   idx, hp)
  {
    var p, slots := ps[k], SlotsAfter(ps, k, SLOTS);
    assert Parsed(p);
    hide SlotAfter, Bounded, Limit, Reference, Parsed;
    forall slot | 0 <= slot < SLOTS
      ensures SlotSane(slots[slot])
    {
      SlotsStaySane(ps, k, slot);
    }
    PreviousIsSane(p, slots, ref);
    ReferenceInRange(p.warps[ref].kind, idx, p.hp, PreviousMotion(p, slots, ref)[idx]);
  }

  /** PrevGmParams over a history of frames: what was saved of the last picture that refreshed the slot of the
      primary reference; the defaults if there is no primary reference, or nothing refreshed its slot. */
  lemma PreviousOverHistory(ps: seq<Picture>, k: nat, ref: nat)
    requires k < |ps| && ref < REFS && forall i :: 0 <= i < |ps| ==> Shaped(ps[i])
    ensures var p, slots := ps[k], SlotsAfter(ps, k, SLOTS);
            && SlotsSized(slots)
            && var previous := PreviousMotion(p, slots, ref);
               && (p.primaryRefFrame == 7 ==> previous == [0, 0, 65536, 0, 0, 65536])
               && (p.primaryRefFrame < 7 ==>
                     var slot := p.refFrameIdx[p.primaryRefFrame];
                     && (forall i :: 0 <= i < k && slot < 8 && Shaped(ps[i]) && LastToRefresh(ps, k, slot, i) ==>
                           previous == SavedWarp(ps[i], ref))
                     && (slot >= 8 || (forall i :: 0 <= i < k ==> !Refreshes(ps[i], ps[i + 1], slot)) ==>
                           previous == [0, 0, 65536, 0, 0, 65536]))
  {
    var p, slots := ps[k], SlotsAfter(ps, k, SLOTS);
    assert Shaped(p);
    hide SlotAfter, Refreshes, LastToRefresh, SavedWarp;
    forall slot | 0 <= slot < SLOTS
      ensures |SlotAfter(ps, k, slot).motion| == REFS
    {
      SlotsKeepShape(ps, k, slot);
    }
    if p.primaryRefFrame < 7 {
      var slot := p.refFrameIdx[p.primaryRefFrame];
      forall i | 0 <= i < k && slot < 8 && Shaped(ps[i]) && LastToRefresh(ps, k, slot, i)
        ensures PreviousMotion(p, slots, ref) == SavedWarp(ps[i], ref)
      {
        SlotHistory(ps, k, slot, i);
      }
      if forall i :: 0 <= i < k ==> !Refreshes(ps[i], ps[i + 1], slot) {
        SlotUntouched(ps, k, slot);
      }
    }
  }

  lemma {:induction false} SlotsKeepShape(ps: seq<Picture>, k: nat, slot: nat)
    requires (k == 0 || k < |ps|) && forall i :: 0 <= i < |ps| ==> Shaped(ps[i])
    ensures |SlotAfter(ps, k, slot).motion| == REFS
  {
    hide Refreshes;
    if k > 0 {
      SlotsKeepShape(ps, k - 1, slot);
      assert Shaped(ps[k - 1]);
    }
  }

  lemma {:induction false} MotionAppend(ws: seq<Warp>, w: Warp, hp: bool, prevs: seq<seq<int>>, prev: seq<int>)
    requires |ws| == |prevs| && Decodable(w, hp) && Sane(prev)
    requires forall i :: 0 <= i < |ws| ==> Decodable(ws[i], hp) && Sane(prevs[i])
    ensures forall i :: 0 <= i < |ws + [w]| ==> Decodable((ws + [w])[i], hp) && Sane((prevs + [prev])[i])
    ensures MotionCode(ws + [w], hp, prevs + [prev]) == MotionCode(ws, hp, prevs) + WarpCode(w, hp, prev)
  {
    hide WarpCode, Decodable, Sane;
    if ws == [] {
      assert ws + [w] == [w] && prevs + [prev] == [prev];
      assert MotionCode([w], hp, [prev]) == WarpCode(w, hp, prev) + MotionCode([], hp, []);
      assert WarpCode(w, hp, prev) + [] == WarpCode(w, hp, prev);
    } else {
      MotionAppend(ws[1..], w, hp, prevs[1..], prev);
      assert (ws + [w])[1..] == ws[1..] + [w] && (prevs + [prev])[1..] == prevs[1..] + [prev];
      Associative(WarpCode(ws[0], hp, prevs[0]), MotionCode(ws[1..], hp, prevs[1..]), WarpCode(w, hp, prev));
    }
  }

  /** global_motion_params( ); false for a type that AV1 does not have. */
  method WriteGlobalMotion(b: BitWriter, p: Picture, slots: seq<Slot>) returns (ok: bool)
    requires b.Valid() && Shaped(p) && |slots| == SLOTS && forall i :: 0 <= i < SLOTS ==> SlotSane(slots[i])
    requires forall i :: 0 <= i < REFS && p.warps[i].kind <= AFFINE ==> Decodable(p.warps[i], p.hp)
    modifies b
    ensures b.Valid()
    ensures ok <==> p.Intra() || forall i :: 0 <= i < REFS ==> p.warps[i].kind <= AFFINE
    ensures ok && p.Intra() ==> b.contents == old(b.contents)
    ensures ok && !p.Intra() ==>
              && SlotsSized(slots)
              && (forall i :: 0 <= i < REFS ==> Decodable(p.warps[i], p.hp) && Sane(PreviousMotion(p, slots, i)))
              && b.contents == old(b.contents) + MotionCode(p.warps, p.hp, AllPrevious(p, slots, REFS))
  {
    hide ByteBits, FromBytes, Decodable, Sane, WarpCode, MotionCode;
    if p.Intra() {
      return true;
    }
    forall ref | 0 <= ref < REFS
      ensures SlotsSized(slots) && Sane(PreviousMotion(p, slots, ref))
    {
      PreviousIsSane(p, slots, ref);
    }
    NoMotion(p.hp);
    assert old(b.contents) + [] == b.contents;
    for ref := 0 to REFS
      invariant b.Valid() && forall i :: 0 <= i < ref ==> p.warps[i].kind <= AFFINE
      invariant b.contents == old(b.contents) + MotionCode(p.warps[..ref], p.hp, AllPrevious(p, slots, ref))
    {
      if p.warps[ref].kind > AFFINE {
        return false;
      }
      var prev := DEFAULT;
      if p.primaryRefFrame != PRIMARY_REF_NONE {
        var slot := p.refFrameIdx[p.primaryRefFrame];
        if slot < SLOTS && slots[slot].valid {
          prev := slots[slot].motion[ref];
        }
      }
      assert prev == PreviousMotion(p, slots, ref) && Decodable(p.warps[ref], p.hp);
      assert forall i :: 0 <= i < ref ==> p.warps[..ref][i] == p.warps[i];
      MotionAppend(p.warps[..ref], p.warps[ref], p.hp, AllPrevious(p, slots, ref), prev);
      assert p.warps[..ref + 1] == p.warps[..ref] + [p.warps[ref]];
      Associative(old(b.contents), MotionCode(p.warps[..ref], p.hp, AllPrevious(p, slots, ref)),
          WarpCode(p.warps[ref], p.hp, prev));
      WriteWarp(b, p.warps[ref], prev, p.hp);
    }
    assert p.warps[..REFS] == p.warps;
    ok := true;
  }

  lemma NoMotion(hp: bool)
    ensures MotionCode([], hp, []) == []
  {
  }
}
