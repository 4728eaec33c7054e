/**
 * FluidUtils: moving one bucket's worth of fluid between an item in an
 * inventory slot and a block entity's single-variant tank.
 *
 * Each direction is a gate on the output slot, a probe of the input item's
 * fluid storage, a simulated extract and insert under one transaction, and a
 * commit only when both sides agree on the amount; only after the commit do
 * the slots change, the inventory get marked dirty and one sound play.
 *
 * The direction names follow the code, not their doc comments: `ToTank`
 * empties the input item into the tank, `FromTank` fills it from the tank.
 */
module FluidUtils {
  import opened Wrappers
  import opened TransferApi
  import opened Minecraft

  /** MILLI_BUCKET: droplets per millibucket. */
  const MILLI_BUCKET: int := BUCKET / 1000

  /**
   * What the game answers about items and fluids: an item kind's maximum
   * stack size, the filled bucket item of a fluid, and the fluid storage
   * found for an item stack in a constant item context (None for an item
   * that cannot hold fluid).
   */
  datatype Game = Game(
    maxCount: Item -> int,
    bucketItem: FluidVariant -> Item,
    fluidStorage: ItemStack -> Option<ItemFluidView>)

  /** Everything a transfer can change: the tank, the slots, the dirty flag, the sounds played. */
  datatype Machine = Machine(tank: StorageView, slots: seq<ItemStack>, dirty: bool, sounds: seq<SoundEvent>) {
    predicate HasSlot(i: int) { 0 <= i < |slots| }
  }

  /** A transfer's result and the state it leaves. */
  datatype Outcome = Outcome(ok: bool, after: Machine)

  function MachineOf(tank: Tank, entity: Inventory, world: World): Machine
    reads tank, entity, entity.items, world
  {
    Machine(tank.View(), entity.items[..], entity.dirty, world.sounds)
  }

  // ---------------------------------------------------------------------------
  // Helpers

  /** The output slot can take one more item: it is empty or below its item's max count. */
  predicate IsOutputReceivable(game: Game, slots: seq<ItemStack>, outputSlot: int)
    requires 0 <= outputSlot < |slots|
  {
    slots[outputSlot].IsEmpty() || slots[outputSlot].GetCount() < game.maxCount(slots[outputSlot].GetItem())
  }

  predicate IsTankEmpty(tank: StorageView) {
    tank.amount == 0
  }

  predicate IsEmptyBucket(slots: seq<ItemStack>, slotIndex: int)
    requires 0 <= slotIndex < |slots|
  {
    slots[slotIndex].IsOf(Bucket)
  }

  /**
   * The tank has room for the whole content of the input item. The item must
   * have a fluid storage: the lookup's result is used without a null check.
   */
  predicate IsTankReceivable(game: Game, slots: seq<ItemStack>, tank: StorageView, inputSlot: int)
    requires 0 <= inputSlot < |slots| && game.fluidStorage(slots[inputSlot]).Some?
  {
    tank.amount <= tank.capacity - game.fluidStorage(slots[inputSlot]).value.amount
  }

  /** The slots after one item leaves the input and `item` lands on the output at its old count + 1. */
  function MoveOne(slots: seq<ItemStack>, inputSlot: int, outputSlot: int, item: Item): (r: seq<ItemStack>)
    requires 0 <= inputSlot < |slots| && 0 <= outputSlot < |slots|
    ensures |r| == |slots|
    ensures forall k :: 0 <= k < |slots| && k != inputSlot && k != outputSlot ==> r[k] == slots[k]
    ensures inputSlot != outputSlot ==>
              r[inputSlot] == slots[inputSlot].SplitOne() &&
              r[outputSlot] == ItemStack(item, slots[outputSlot].GetCount() + 1)
    ensures inputSlot == outputSlot ==>
              r[outputSlot] == ItemStack(item, slots[inputSlot].SplitOne().GetCount() + 1)
  {
    var removed := slots[inputSlot := slots[inputSlot].SplitOne()];
    removed[outputSlot := ItemStack(item, removed[outputSlot].GetCount() + 1)]
  }

  // ---------------------------------------------------------------------------
  // The transfer, as functions of the state

  /** transferToTank: empty the input item into the tank; an empty bucket goes to the output. */
  function ToTank(game: Game, pos: BlockPos, m: Machine, inputSlot: int, outputSlot: int): (r: Outcome)
    requires m.HasSlot(inputSlot) && m.HasSlot(outputSlot)
    ensures !r.ok ==> r.after == m
    ensures !IsOutputReceivable(game, m.slots, outputSlot) ==> !r.ok
    ensures game.fluidStorage(m.slots[inputSlot]).None? ==> !r.ok
    ensures var s := game.fluidStorage(m.slots[inputSlot]);
            r.ok <==> IsOutputReceivable(game, m.slots, outputSlot) && s.Some? && !s.value.resource.IsBlank() &&
                      s.value.extract(s.value.resource, BUCKET) == InsertedAmount(m.tank, s.value.resource, BUCKET)
    ensures r.ok ==>
              var v := game.fluidStorage(m.slots[inputSlot]).value.resource;
              var moved := game.fluidStorage(m.slots[inputSlot]).value.extract(v, BUCKET);
              0 <= moved <= BUCKET &&
              r.after.tank == AfterInsert(m.tank, v, BUCKET) &&
              (Consistent(m.tank) ==> r.after.tank.amount == m.tank.amount + moved) &&
              (moved > 0 ==> r.after.tank.resource == v) &&
              r.after.slots == MoveOne(m.slots, inputSlot, outputSlot, Bucket) &&
              r.after.dirty &&
              r.after.sounds == m.sounds + [SoundEvent(EmptySound, v, pos)]
    ensures Bounded(m.tank) ==> Bounded(r.after.tank)
    ensures Consistent(m.tank) ==> Consistent(r.after.tank)
  {
    if !IsOutputReceivable(game, m.slots, outputSlot) then Outcome(false, m)
    else
      match game.fluidStorage(m.slots[inputSlot])
      case None => Outcome(false, m)
      case Some(slotStorage) =>
        var resource := slotStorage.resource;
        if resource.IsBlank() then Outcome(false, m)
        else
          var bucketTransfer := slotStorage.extract(resource, BUCKET);
          var tankTransfer := InsertedAmount(m.tank, resource, BUCKET);
          if bucketTransfer != tankTransfer then Outcome(false, m)
          else
            Outcome(true, Machine(AfterInsert(m.tank, resource, BUCKET),
                                  MoveOne(m.slots, inputSlot, outputSlot, Bucket),
                                  true,
                                  m.sounds + [SoundEvent(EmptySound, resource, pos)]))
  }

  /** transferFromTank: fill the input item from the tank; the fluid's bucket goes to the output. */
  function FromTank(game: Game, pos: BlockPos, m: Machine, inputSlot: int, outputSlot: int): (r: Outcome)
    requires m.HasSlot(inputSlot) && m.HasSlot(outputSlot)
    ensures !r.ok ==> r.after == m
    ensures !IsOutputReceivable(game, m.slots, outputSlot) ==> !r.ok
    ensures game.fluidStorage(m.slots[inputSlot]).None? || m.tank.resource.IsBlank() ==> !r.ok
    ensures var s := game.fluidStorage(m.slots[inputSlot]);
            var v := m.tank.resource;
            r.ok <==> IsOutputReceivable(game, m.slots, outputSlot) && s.Some? && !v.IsBlank() &&
                      s.value.insert(v, BUCKET) == ExtractedAmount(m.tank, v, BUCKET)
    ensures r.ok ==>
              var v := m.tank.resource;
              var moved := game.fluidStorage(m.slots[inputSlot]).value.insert(v, BUCKET);
              0 <= moved <= BUCKET &&
              r.after.tank == AfterExtract(m.tank, v, BUCKET) &&
              r.after.tank.amount == m.tank.amount - moved &&
              r.after.slots == MoveOne(m.slots, inputSlot, outputSlot, game.bucketItem(v)) &&
              r.after.dirty &&
              r.after.sounds == m.sounds + [SoundEvent(FillSound, v, pos)]
    ensures Bounded(m.tank) ==> Bounded(r.after.tank)
    ensures Consistent(m.tank) ==> Consistent(r.after.tank)
  {
    if !IsOutputReceivable(game, m.slots, outputSlot) then Outcome(false, m)
    else
      var resource := m.tank.resource;
      match game.fluidStorage(m.slots[inputSlot])
      case None => Outcome(false, m)
      case Some(slotStorage) =>
        if resource.IsBlank() then Outcome(false, m)
        else
          var bucketTransfer := slotStorage.insert(resource, BUCKET);
          var tankTransfer := ExtractedAmount(m.tank, resource, BUCKET);
          if bucketTransfer != tankTransfer then Outcome(false, m)
          else
            Outcome(true, Machine(AfterExtract(m.tank, resource, BUCKET),
                                  MoveOne(m.slots, inputSlot, outputSlot, game.bucketItem(resource)),
                                  true,
                                  m.sounds + [SoundEvent(FillSound, resource, pos)]))
  }

  /** handleTankTransfer: try to empty the item into the tank; failing that, fill it from the tank. */
  function HandleTransfer(game: Game, pos: BlockPos, m: Machine, inputSlot: int, outputSlot: int): (r: Outcome)
    requires m.HasSlot(inputSlot) && m.HasSlot(outputSlot)
    ensures r.ok <==> ToTank(game, pos, m, inputSlot, outputSlot).ok || FromTank(game, pos, m, inputSlot, outputSlot).ok
    ensures ToTank(game, pos, m, inputSlot, outputSlot).ok ==> r == ToTank(game, pos, m, inputSlot, outputSlot)
    ensures !ToTank(game, pos, m, inputSlot, outputSlot).ok ==> r == FromTank(game, pos, m, inputSlot, outputSlot)
    ensures !r.ok ==> r.after == m
    ensures Consistent(m.tank) ==> Consistent(r.after.tank)
  {
    var toTank := ToTank(game, pos, m, inputSlot, outputSlot);
    if toTank.ok then toTank else FromTank(game, pos, toTank.after, inputSlot, outputSlot)
  }

  // ---------------------------------------------------------------------------
  // The transfer, on the block entity's objects

  /** transferToTank on the tank, inventory and world objects. */
  method TransferToTank(game: Game, world: World, pos: BlockPos, entity: Inventory, tank: Tank,
                        inputSlot: int, outputSlot: int) returns (ok: bool)
    requires 0 <= inputSlot < entity.items.Length && 0 <= outputSlot < entity.items.Length
    modifies world, entity, entity.items, tank
    ensures var r := ToTank(game, pos, old(MachineOf(tank, entity, world)), inputSlot, outputSlot);
            ok == r.ok && MachineOf(tank, entity, world) == r.after
  {
    if !IsOutputReceivable(game, entity.items[..], outputSlot) {
      return false;
    }
    var slotStorage := game.fluidStorage(entity.GetStack(inputSlot));
    if slotStorage.None? {
      return false;
    }
    var resource := slotStorage.value.resource;
    if resource.IsBlank() {
      return false;
    }
    var transaction := tank.OpenOuter();
    var bucketTransfer := slotStorage.value.extract(resource, BUCKET);
    var tankTransfer := tank.Insert(resource, BUCKET);
    if bucketTransfer == tankTransfer {
      // committed: the tank keeps the insert
      world.PlaySound(SoundEvent(EmptySound, resource, pos));
      entity.RemoveStack(inputSlot);
      entity.SetStack(outputSlot, ItemStack(Bucket, entity.GetStack(outputSlot).GetCount() + 1));
      entity.MarkDirty();
      return true;
    }
    tank.Abort(transaction);
    return false;
  }

  /** transferFromTank on the tank, inventory and world objects. */
  method TransferFromTank(game: Game, world: World, pos: BlockPos, entity: Inventory, tank: Tank,
                          inputSlot: int, outputSlot: int) returns (ok: bool)
    requires 0 <= inputSlot < entity.items.Length && 0 <= outputSlot < entity.items.Length
    modifies world, entity, entity.items, tank
    ensures var r := FromTank(game, pos, old(MachineOf(tank, entity, world)), inputSlot, outputSlot);
            ok == r.ok && MachineOf(tank, entity, world) == r.after
  {
    if !IsOutputReceivable(game, entity.items[..], outputSlot) {
      return false;
    }
    var resource := tank.variant;
    var slotStorage := game.fluidStorage(entity.GetStack(inputSlot));
    if slotStorage.None? || resource.IsBlank() {
      return false;
    }
    var transaction := tank.OpenOuter();
    var bucketTransfer := slotStorage.value.insert(resource, BUCKET);
    var tankTransfer := tank.Extract(resource, BUCKET);
    if bucketTransfer == tankTransfer {
      // committed: the tank keeps the extract
      world.PlaySound(SoundEvent(FillSound, resource, pos));
      entity.RemoveStack(inputSlot);
      var item := game.bucketItem(resource);
      entity.SetStack(outputSlot, ItemStack(item, entity.GetStack(outputSlot).GetCount() + 1));
      entity.MarkDirty();
      return true;
    }
    tank.Abort(transaction);
    return false;
  }

  /** handleTankTransfer on the tank, inventory and world objects. */
  method HandleTankTransfer(game: Game, world: World, pos: BlockPos, entity: Inventory, tank: Tank,
                            inputSlot: int, outputSlot: int) returns (ok: bool)
    requires 0 <= inputSlot < entity.items.Length && 0 <= outputSlot < entity.items.Length
    modifies world, entity, entity.items, tank
    ensures var r := HandleTransfer(game, pos, old(MachineOf(tank, entity, world)), inputSlot, outputSlot);
            ok == r.ok && MachineOf(tank, entity, world) == r.after
  {
    ok := TransferToTank(game, world, pos, entity, tank, inputSlot, outputSlot);
    if ok {
      return true;
    }
    ok := TransferFromTank(game, world, pos, entity, tank, inputSlot, outputSlot);
  }
  // ---------------------------------------------------------------------------
  // Unit conversions, in Java's 64-bit `long` arithmetic

  /** A Java `long`. */
  type Long = x: int | -0x8000_0000_0000_0000 <= x <= 0x7FFF_FFFF_FFFF_FFFF

  const LONG_MIN: int := -0x8000_0000_0000_0000
  const LONG_MAX: int := 0x7FFF_FFFF_FFFF_FFFF

  /** The largest millibucket amount whose droplet count still fits in a `long`. */
  const MAX_EXACT_MB: int := 113_868_790_578_454_999

  /** Euclidean division of a non-negative number: the quotient's multiple lies within one divisor below it. */
  lemma DivisionBounds(a: int, b: int)
    requires 0 <= a && 0 < b
    ensures 0 <= a / b && 0 <= (a / b) * b <= a < (a / b) * b + b
  {
    var q, r := a / b, a % b;
    assert a == q * b + r && 0 <= r < b;
    assert 0 <= q * b;
  }

  /** Java's `/`: the quotient truncated toward zero. */
  function JavaDiv(a: int, b: int): (q: int)
    requires 0 < b
    ensures 0 <= a ==> 0 <= q * b <= a < q * b + b
    ensures a < 0 ==> q * b - b < a <= q * b <= 0
  {
    if 0 <= a then
      DivisionBounds(a, b);
      a / b
    else
      DivisionBounds(-a, b);
      assert (-((-a) / b)) * b == -(((-a) / b) * b);
      -((-a) / b)
  }

  /** Java's `long` result of an exact integer: its two's-complement wrap into 64 bits. */
  function WrapLong(x: int): (r: Long)
    ensures LONG_MIN <= x <= LONG_MAX ==> r == x
    ensures (x - r) % 0x1_0000_0000_0000_0000 == 0
  {
    (x - LONG_MIN) % 0x1_0000_0000_0000_0000 + LONG_MIN
  }

  /**
   * convertDropletsToMb: whole buckets in `droplets` (rounded toward zero),
   * 1000 millibuckets each. The product never leaves the `long` range.
   */
  function ConvertDropletsToMb(droplets: Long): (mb: Long)
    ensures mb % 1000 == 0
    ensures 0 <= droplets ==> 0 <= mb && mb / 1000 * BUCKET <= droplets < (mb / 1000 + 1) * BUCKET
    ensures droplets < 0 ==> mb <= 0 && (mb / 1000 - 1) * BUCKET < droplets <= mb / 1000 * BUCKET
  {
    JavaDiv(droplets, BUCKET) * 1000
  }

  /**
   * convetMbToDroplets: whole thousands of millibuckets in `mb` (rounded toward
   * zero), one bucket each; beyond MAX_EXACT_MB the product wraps.
   */
  function ConvetMbToDroplets(mb: Long): (droplets: Long)
    ensures -MAX_EXACT_MB <= mb <= MAX_EXACT_MB ==> droplets % BUCKET == 0
    ensures 0 <= mb <= MAX_EXACT_MB ==>
              0 <= droplets && droplets / BUCKET * 1000 <= mb < (droplets / BUCKET + 1) * 1000
    ensures -MAX_EXACT_MB <= mb < 0 ==>
              droplets <= 0 && (droplets / BUCKET - 1) * 1000 < mb <= droplets / BUCKET * 1000
  {
    WrapLong(JavaDiv(mb, 1000) * BUCKET)
  }
}
