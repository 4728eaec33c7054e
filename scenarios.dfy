/**
 * Concrete runs of handleTankTransfer in a small game with water, lava,
 * the empty bucket and a water bucket.
 */
module Scenarios {
  import opened Wrappers
  import opened TransferApi
  import opened Minecraft
  import opened FluidUtils

  const WATER: FluidVariant := Fluid(0)
  const LAVA: FluidVariant := Fluid(1)
  const WATER_BUCKET: Item := Other(1)
  const HERE: BlockPos := BlockPos(0, 64, 0)

  /** A bucket's fluid storage: all of one bucket goes in or out, or nothing does. */
  function BucketView(content: FluidVariant): ItemFluidView {
    ItemFluidView(
      content,
      if content.IsBlank() then 0 else BUCKET,
      (v: FluidVariant, n: int) => if content.IsBlank() && v == WATER && BUCKET <= n then BUCKET else 0,
      (v: FluidVariant, n: int) => if !content.IsBlank() && v == content && BUCKET <= n then BUCKET else 0)
  }

  function SmallGame(): Game {
    Game(
      (i: Item) => if i == Bucket then 16 else if i == WATER_BUCKET then 1 else 64,
      (v: FluidVariant) => if v == WATER then WATER_BUCKET else Air,
      (s: ItemStack) =>
        if s.GetItem() == WATER_BUCKET then Some(BucketView(WATER))
        else if s.GetItem() == Bucket then Some(BucketView(Blank))
        else None)
  }

  /** A water bucket emptied into an empty one-bucket tank. */
  lemma WaterBucketFillsEmptyTank()
    ensures var m := Machine(StorageView(Blank, 0, BUCKET), [ItemStack(WATER_BUCKET, 1), ItemStack(Air, 0)], false, []);
            HandleTransfer(SmallGame(), HERE, m, 0, 1) ==
              Outcome(true, Machine(StorageView(WATER, BUCKET, BUCKET),
                                    [ItemStack(WATER_BUCKET, 0), ItemStack(Bucket, 1)],
                                    true,
                                    [SoundEvent(EmptySound, WATER, HERE)]))
  {
    var m := Machine(StorageView(Blank, 0, BUCKET), [ItemStack(WATER_BUCKET, 1), ItemStack(Air, 0)], false, []);
    var r := ToTank(SmallGame(), HERE, m, 0, 1);
    assert SmallGame().fluidStorage(m.slots[0]) == Some(BucketView(WATER));
    assert InsertedAmount(m.tank, WATER, BUCKET) == BUCKET;
    assert r.ok;
  }

  /** A water bucket against a full lava tank: the tank takes nothing, so nothing happens. */
  lemma WaterBucketRefusedByFullLavaTank()
    ensures var m := Machine(StorageView(LAVA, BUCKET, BUCKET), [ItemStack(WATER_BUCKET, 1), ItemStack(Air, 0)], false, []);
            ToTank(SmallGame(), HERE, m, 0, 1) == Outcome(false, m)
  {
    var m := Machine(StorageView(LAVA, BUCKET, BUCKET), [ItemStack(WATER_BUCKET, 1), ItemStack(Air, 0)], false, []);
    assert SmallGame().fluidStorage(m.slots[0]) == Some(BucketView(WATER));
    assert InsertedAmount(m.tank, WATER, BUCKET) == 0;
  }

  /** An output slot already holding a full stack of buckets blocks both directions. */
  lemma FullOutputBlocksTransfer()
    ensures var m := Machine(StorageView(WATER, BUCKET, BUCKET), [ItemStack(Bucket, 1), ItemStack(Bucket, 16)], false, []);
            HandleTransfer(SmallGame(), HERE, m, 0, 1) == Outcome(false, m)
  {
    var m := Machine(StorageView(WATER, BUCKET, BUCKET), [ItemStack(Bucket, 1), ItemStack(Bucket, 16)], false, []);
    assert !IsOutputReceivable(SmallGame(), m.slots, 1);
  }

  /** Filling an empty bucket from a water tank drains it and leaves a water bucket. */
  lemma EmptyBucketDrainsWaterTank()
    ensures var m := Machine(StorageView(WATER, BUCKET, 4 * BUCKET), [ItemStack(Bucket, 2), ItemStack(Air, 0)], false, []);
            HandleTransfer(SmallGame(), HERE, m, 0, 1) ==
              Outcome(true, Machine(StorageView(Blank, 0, 4 * BUCKET),
                                    [ItemStack(Bucket, 1), ItemStack(WATER_BUCKET, 1)],
                                    true,
                                    [SoundEvent(FillSound, WATER, HERE)]))
  {
    var m := Machine(StorageView(WATER, BUCKET, 4 * BUCKET), [ItemStack(Bucket, 2), ItemStack(Air, 0)], false, []);
    assert SmallGame().fluidStorage(m.slots[0]) == Some(BucketView(Blank));
    assert !ToTank(SmallGame(), HERE, m, 0, 1).ok;
    assert ExtractedAmount(m.tank, WATER, BUCKET) == BUCKET;
    assert FromTank(SmallGame(), HERE, m, 0, 1).ok;
  }
}
