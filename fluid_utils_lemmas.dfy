/** Properties of the bucket/tank transfer and of the unit conversions. */
module FluidUtilsLemmas {
  import opened TransferApi
  import opened Minecraft
  import opened FluidUtils

  /** A full output slot stops both directions before anything is looked at. */
  lemma GateRejectsBoth(game: Game, pos: BlockPos, m: Machine, inputSlot: int, outputSlot: int)
    requires m.HasSlot(inputSlot) && m.HasSlot(outputSlot)
    requires !IsOutputReceivable(game, m.slots, outputSlot)
    ensures ToTank(game, pos, m, inputSlot, outputSlot) == Outcome(false, m)
    ensures FromTank(game, pos, m, inputSlot, outputSlot) == Outcome(false, m)
    ensures HandleTransfer(game, pos, m, inputSlot, outputSlot) == Outcome(false, m)
  {
  }

  /** An item without a fluid storage is refused by both directions. */
  lemma NoStorageRejectsBoth(game: Game, pos: BlockPos, m: Machine, inputSlot: int, outputSlot: int)
    requires m.HasSlot(inputSlot) && m.HasSlot(outputSlot)
    requires game.fluidStorage(m.slots[inputSlot]).None?
    ensures HandleTransfer(game, pos, m, inputSlot, outputSlot) == Outcome(false, m)
  {
  }

  /**
   * The gate looks only at the count: after a transfer the output holds one
   * more item than before (of a possibly different kind), which never exceeds
   * the old stack's max count.
   */
  lemma OutputStaysWithinOldMaxCount(game: Game, pos: BlockPos, m: Machine, inputSlot: int, outputSlot: int)
    requires m.HasSlot(inputSlot) && m.HasSlot(outputSlot)
    requires !m.slots[outputSlot].IsEmpty()
    ensures var r := HandleTransfer(game, pos, m, inputSlot, outputSlot);
            r.ok ==> r.after.slots[outputSlot].count <= game.maxCount(m.slots[outputSlot].GetItem())
  {
  }

  /** After emptying into the tank, the output slot holds empty buckets. */
  lemma ToTankLeavesEmptyBucket(game: Game, pos: BlockPos, m: Machine, inputSlot: int, outputSlot: int)
    requires m.HasSlot(inputSlot) && m.HasSlot(outputSlot)
    requires ToTank(game, pos, m, inputSlot, outputSlot).ok
    ensures IsEmptyBucket(ToTank(game, pos, m, inputSlot, outputSlot).after.slots, outputSlot)
  {
  }

  /**
   * An empty tank gives no fluid: filling from it leaves the tank as it was,
   * and from a consistent (blank) empty tank it is refused outright.
   */
  lemma EmptyTankGivesNothing(game: Game, pos: BlockPos, m: Machine, inputSlot: int, outputSlot: int)
    requires m.HasSlot(inputSlot) && m.HasSlot(outputSlot)
    requires IsTankEmpty(m.tank)
    ensures FromTank(game, pos, m, inputSlot, outputSlot).after.tank == m.tank
    ensures Consistent(m.tank) ==> !FromTank(game, pos, m, inputSlot, outputSlot).ok
  {
  }

  /**
   * For an item whose fluid the tank accepts, the tank is receivable exactly
   * when inserting the item's whole content would be accepted in full.
   */
  lemma TankReceivableIffWholeInsert(game: Game, slots: seq<ItemStack>, tank: StorageView, inputSlot: int)
    requires 0 <= inputSlot < |slots| && game.fluidStorage(slots[inputSlot]).Some?
    requires var view := game.fluidStorage(slots[inputSlot]).value;
             !view.resource.IsBlank() && 0 <= view.amount && Accepts(tank, view.resource) && Bounded(tank)
    ensures var view := game.fluidStorage(slots[inputSlot]).value;
            IsTankReceivable(game, slots, tank, inputSlot) <==>
              InsertedAmount(tank, view.resource, view.amount) == view.amount
  {
  }

  /**
   * The space check ignores the variant: a tank holding another fluid can be
   * "receivable" while an insert of the item's fluid would be refused.
   */
  lemma TankReceivableIgnoresVariant(game: Game, slots: seq<ItemStack>, tank: StorageView, inputSlot: int)
    requires 0 <= inputSlot < |slots| && game.fluidStorage(slots[inputSlot]).Some?
    requires var view := game.fluidStorage(slots[inputSlot]).value;
             !view.resource.IsBlank() && 0 <= view.amount && !Accepts(tank, view.resource) &&
             tank.amount + view.amount <= tank.capacity
    ensures var view := game.fluidStorage(slots[inputSlot]).value;
            IsTankReceivable(game, slots, tank, inputSlot) && InsertedAmount(tank, view.resource, view.amount) == 0
  {
  }

  /**
   * The output count stays a Java `int`: when every max count fits in an
   * `int`, the count + 1 written after a successful transfer fits too.
   */
  lemma OutputCountFitsInt(game: Game, pos: BlockPos, m: Machine, inputSlot: int, outputSlot: int)
    requires m.HasSlot(inputSlot) && m.HasSlot(outputSlot)
    requires forall i :: game.maxCount(i) <= 0x7FFF_FFFF
    ensures var r := HandleTransfer(game, pos, m, inputSlot, outputSlot);
            r.ok ==> r.after.slots[outputSlot].count <= 0x7FFF_FFFF
  {
  }

  /**
   * Zero equals zero: when the item gives nothing and the tank takes nothing,
   * the transfer still commits, the slots change and a sound plays, while the
   * tank stays as it was.
   */
  lemma ZeroAgreementCommits(game: Game, pos: BlockPos, m: Machine, inputSlot: int, outputSlot: int)
    requires m.HasSlot(inputSlot) && m.HasSlot(outputSlot)
    requires IsOutputReceivable(game, m.slots, outputSlot)
    requires game.fluidStorage(m.slots[inputSlot]).Some?
    requires var view := game.fluidStorage(m.slots[inputSlot]).value;
             !view.resource.IsBlank() && view.extract(view.resource, BUCKET) == 0 &&
             InsertedAmount(m.tank, view.resource, BUCKET) == 0
    ensures var r := ToTank(game, pos, m, inputSlot, outputSlot);
            r.ok && r.after.tank == m.tank && r.after.slots == MoveOne(m.slots, inputSlot, outputSlot, Bucket) &&
            |r.after.sounds| == |m.sounds| + 1
  {
  }

  // ---------------------------------------------------------------------------
  // Repeated invocation

  /**
   * One tick of the caller: the slots as the players left them, and the
   * slots handleTankTransfer is called with.
   */
  datatype Tick = Tick(slots: seq<ItemStack>, inputSlot: int, outputSlot: int)

  predicate TickFits(t: Tick) {
    0 <= t.inputSlot < |t.slots| && 0 <= t.outputSlot < |t.slots|
  }

  /** The state after handleTankTransfer has been called once per tick. */
  function RunTicks(game: Game, pos: BlockPos, m: Machine, ticks: seq<Tick>): Machine
    requires forall k :: 0 <= k < |ticks| ==> TickFits(ticks[k])
    decreases |ticks|
  {
    if ticks == [] then m
    else
      var t := ticks[0];
      assert TickFits(t);
      var before := Machine(m.tank, t.slots, m.dirty, m.sounds);
      RunTicks(game, pos, HandleTransfer(game, pos, before, t.inputSlot, t.outputSlot).after, ticks[1..])
  }

  /**
   * Every tank state reachable by repeated transfers is consistent: within
   * capacity, and blank exactly when empty; the capacity never changes.
   */
  lemma {:induction false} RunKeepsTankConsistent(game: Game, pos: BlockPos, m: Machine, ticks: seq<Tick>)
    requires forall k :: 0 <= k < |ticks| ==> TickFits(ticks[k])
    requires Consistent(m.tank)
    ensures Consistent(RunTicks(game, pos, m, ticks).tank)
    ensures RunTicks(game, pos, m, ticks).tank.capacity == m.tank.capacity
    decreases |ticks|
  {
    if ticks != [] {
      var t := ticks[0];
      assert TickFits(t);
      var before := Machine(m.tank, t.slots, m.dirty, m.sounds);
      var next := HandleTransfer(game, pos, before, t.inputSlot, t.outputSlot).after;
      assert next.tank.capacity == m.tank.capacity;
      assert forall k :: 0 <= k < |ticks[1..]| ==> TickFits(ticks[1..][k]) by {
        forall k | 0 <= k < |ticks[1..]| ensures TickFits(ticks[1..][k]) {
          assert ticks[1..][k] == ticks[k + 1];
        }
      }
      RunKeepsTankConsistent(game, pos, next, ticks[1..]);
    }
  }

  // ---------------------------------------------------------------------------
  // Unit conversions

  /**
   * Droplets to millibuckets and back loses the part below one bucket: the
   * result is the input rounded down to whole buckets.
   */
  lemma DropletsRoundTrip(droplets: Long)
    requires 0 <= droplets
    ensures ConvetMbToDroplets(ConvertDropletsToMb(droplets)) == droplets - droplets % BUCKET
    ensures ConvetMbToDroplets(ConvertDropletsToMb(droplets)) <= droplets
    ensures ConvetMbToDroplets(ConvertDropletsToMb(droplets)) == droplets <==> droplets % BUCKET == 0
  {
    var mb := ConvertDropletsToMb(droplets);
    var back := ConvetMbToDroplets(mb);
    assert mb == droplets / BUCKET * 1000;
    assert back == droplets / BUCKET * BUCKET;
  }

  /** Millibuckets to droplets and back rounds down to whole thousands. */
  lemma MbRoundTrip(mb: Long)
    requires 0 <= mb <= MAX_EXACT_MB
    ensures ConvertDropletsToMb(ConvetMbToDroplets(mb)) == mb - mb % 1000
  {
    var droplets := ConvetMbToDroplets(mb);
    assert droplets == mb / 1000 * BUCKET;
    assert ConvertDropletsToMb(droplets) == mb / 1000 * 1000;
  }

  /** Just past MAX_EXACT_MB the droplet count wraps to a negative `long`. */
  lemma MbToDropletsWrapsPastLimit()
    ensures ConvetMbToDroplets(MAX_EXACT_MB + 1) < 0
  {
    assert JavaDiv(MAX_EXACT_MB + 1, 1000) == 113_868_790_578_455;
  }
}
