# fluidutils: the bucket/tank transfer, in Dafny

This project models `FluidUtils`, the helper a Fabric mod's block entity uses
to move fluid between an item in one of its inventory slots (a bucket) and its
single-variant fluid tank. It covers both directions of the transfer, the
bidirectional entry point, the small predicates beside them, and the
droplet/millibucket conversions.

Each direction works the same way:

1. A cheap gate on the output slot.
2. A probe of the input item's fluid storage.
3. A simulated extract on one side and insert on the other, under one transaction.
4. A commit only when the two amounts are equal.
5. Only after the commit: one item leaves the input slot, the output slot is
   replaced by the result item at its old count + 1, the inventory is marked
   dirty, and one sound plays.

When the two amounts differ, the transaction closes without a commit and the
tank goes back to its earlier state. The gate, no-storage and blank-fluid exits
return before any transaction is opened.

Modules:

- `TransferApi` (`transfer_api.dfy`) holds the Fabric transfer API as the core
  sees it.
  - `FluidVariant`, with `Blank` meaning "no fluid".
  - `InsertedAmount`, `AfterInsert`, `ExtractedAmount` and `AfterExtract`:
    the rules of a single-variant storage, written as functions on a
    `StorageView` (variant, amount, capacity).
  - The `Tank` class. Its `Insert` and `Extract` methods update its fields in
    place and are proved against those functions.
  - A `Transaction`: a snapshot of the tank that `Abort` restores.
  - `ItemFluidView`: the storage an item exposes. It holds its content and the
    amounts a simulated insert or extract would move.
- `Minecraft` (`minecraft.dfy`) holds the Minecraft side.
  - `ItemStack`, following Minecraft's rules: a stack of air or of count ≤ 0
    is empty, and an empty stack reports air and count 0.
  - `SplitOne`: what is left after one item is removed from a slot.
  - The `Inventory` class: a fixed array of slots plus a dirty flag.
  - The `World` class: the log of sounds played.
- `FluidUtils` (`fluid_utils.dfy`) holds:
  - the predicates `IsOutputReceivable`, `IsTankEmpty`, `IsEmptyBucket` and
    `IsTankReceivable`;
  - `ToTank`, `FromTank` and `HandleTransfer`: the transfer as functions of an
    explicit state `Machine` (tank, slots, dirty flag, sounds);
  - `TransferToTank`, `TransferFromTank` and `HandleTankTransfer`: methods
    that run the same steps in place on the tank, inventory and world objects,
    each proved to match its function;
  - the unit conversions, in Java `long` arithmetic.
- `FluidUtilsLemmas` (`fluid_utils_lemmas.dfy`) holds properties that involve
  several members, plus an invariant over repeated calls.
- `Scenarios` (`scenarios.dfy`) holds concrete runs in a small game: water,
  lava, an empty bucket and a water bucket.

`Game` is a parameter. It holds three lookups from the world outside the core:

- an item kind's maximum stack size;
- the filled bucket item of a fluid;
- the fluid storage found for a stack in a constant item context (`None` where
  Java gets `null`).

Names follow the code. `transferToTank` empties the input item into the tank,
and `transferFromTank` fills the input item from the tank. The doc comments at
FluidUtils.java:43-53 and :103-113 describe these the other way round. The
`isMillibucket` parameter documented at :33 does not exist.

Behaviour kept exactly as the code has it:

- **The gate ignores item kind.** `IsOutputReceivable` compares only the
  count with the max count. A successful transfer then replaces the output
  with a new item kind at the old count + 1, whatever was there before.
- **Zero equals zero is a success.** When the item gives nothing and the tank
  takes nothing, both amounts are 0, so the transfer commits. The slots still
  change and a sound still plays (`ZeroAgreementCommits`).
- **The output count is read after the input is decremented.** This matters
  only when the input and output are the same slot (see `MoveOne`).
- **Emptying a bucket into the tank plays the fluid's *empty* sound**, and
  filling a bucket plays its *fill* sound.
- **A drained tank forgets its fluid.** The tank follows Fabric's
  `SingleVariantStorage`, whose extract sets the variant back to blank once the
  amount reaches zero. Every state reachable by transfers therefore satisfies
  `Consistent`: within capacity, and blank exactly when empty
  (`RunKeepsTankConsistent`).
- **`convetMbToDroplets` can overflow.** It multiplies in 64 bits, so beyond
  `MAX_EXACT_MB` (113 868 790 578 454 999 mb) the result wraps
  (`MbToDropletsWrapsPastLimit`). `convertDropletsToMb` can never overflow:
  its result type `Long` is checked.

## Model

| member | source | states |
|---|---|---|
| `TransferApi.InsertedAmount` | src/main/java/jiraiyah/fluidutils/FluidUtils.java:141 | the tank takes between 0 and the requested amount. It takes something only if it holds that fluid or nothing, and never beyond its capacity. It takes the whole request when that fits, and otherwise fills up to capacity |
| `TransferApi.AfterInsert` | src/main/java/jiraiyah/fluidutils/FluidUtils.java:141 | the capacity is unchanged. Inserting nothing leaves the storage as it was. Inserting something makes the storage hold that fluid. For a consistent storage (or one that already holds a fluid) it raises the amount by exactly what was inserted; a blank storage with a stray amount has that amount overwritten, as Fabric's insert does. Consistency is preserved |
| `TransferApi.ExtractedAmount` | src/main/java/jiraiyah/fluidutils/FluidUtils.java:77 | the tank gives between 0 and the requested amount, and gives something only from the fluid it holds. It gives the whole request if it has that much, and otherwise everything it has |
| `TransferApi.AfterExtract` | src/main/java/jiraiyah/fluidutils/FluidUtils.java:77 | the amount drops by exactly what was extracted. A storage drained to zero becomes blank; otherwise it keeps its fluid. Consistency is preserved |
| `TransferApi.Tank.Insert` | src/main/java/jiraiyah/fluidutils/FluidUtils.java:141 | the in-place insert returns `InsertedAmount` of the old tank and leaves the tank at `AfterInsert` of it |
| `TransferApi.Tank.Extract` | src/main/java/jiraiyah/fluidutils/FluidUtils.java:77 | the in-place extract returns `ExtractedAmount` of the old tank and leaves the tank at `AfterExtract` of it |
| `TransferApi.Tank.OpenOuter` | src/main/java/jiraiyah/fluidutils/FluidUtils.java:135 | the transaction opened records the tank's current state |
| `TransferApi.Tank.Abort` | src/main/java/jiraiyah/fluidutils/FluidUtils.java:135-160 | closing a transaction without a commit restores the tank to the state recorded when it opened |
| `Minecraft.ItemStack.SplitOne` | src/main/java/jiraiyah/fluidutils/FluidUtils.java:152 | removing one item lowers the count by exactly one and keeps the item kind, unless the stack was already empty, in which case its count stays 0 |
| `Minecraft.Inventory.RemoveStack` | src/main/java/jiraiyah/fluidutils/FluidUtils.java:88 | only the named slot changes, and it becomes `SplitOne` of what it held |
| `Minecraft.Inventory.SetStack` | src/main/java/jiraiyah/fluidutils/FluidUtils.java:92 | only the named slot changes, and it becomes the given stack |
| `Minecraft.Inventory.MarkDirty` | src/main/java/jiraiyah/fluidutils/FluidUtils.java:94 | the inventory is marked changed |
| `Minecraft.World.PlaySound` | src/main/java/jiraiyah/fluidutils/FluidUtils.java:86 | exactly one sound event is appended to the log |
| `FluidUtils.MoveOne` | src/main/java/jiraiyah/fluidutils/FluidUtils.java:88-92 | every other slot is untouched. With distinct slots, the input loses one item and the output becomes the result item at its old count + 1. With one shared slot, the count used is the one left after the removal |
| `FluidUtils.ToTank` | src/main/java/jiraiyah/fluidutils/FluidUtils.java:114-163 | success happens exactly when all of these hold: the gate passes, the item has a storage, that storage's fluid is not blank, and the item-side extract equals the tank-side insert for one BUCKET. On failure nothing changes. On success a consistent tank gains exactly the agreed amount (at most one bucket) and takes on the item's fluid when that amount is positive; one item leaves the input; the output becomes `Items.BUCKET` at its count + 1; the inventory is dirty; the empty sound is logged once. Bounds and consistency are preserved |
| `FluidUtils.FromTank` | src/main/java/jiraiyah/fluidutils/FluidUtils.java:54-101 | success happens exactly when all of these hold: the gate passes, the item has a storage, the tank's fluid is not blank, and the item-side insert equals the tank-side extract for one BUCKET. On failure nothing changes. On success the tank loses exactly the agreed amount; one item leaves the input; the output becomes that fluid's bucket item at its count + 1; the inventory is dirty; the fill sound is logged once. Bounds and consistency are preserved |
| `FluidUtils.HandleTransfer` | src/main/java/jiraiyah/fluidutils/FluidUtils.java:36-41 | a successful emptying into the tank is the whole result. Otherwise the result is exactly `FromTank` on the unchanged state. The call succeeds iff either direction would, and a failure changes nothing |
| `FluidUtils.TransferToTank` | src/main/java/jiraiyah/fluidutils/FluidUtils.java:114-163 | the in-place method on the tank, inventory and world returns `ToTank`'s result and leaves exactly `ToTank`'s state |
| `FluidUtils.TransferFromTank` | src/main/java/jiraiyah/fluidutils/FluidUtils.java:54-101 | the in-place method returns `FromTank`'s result and leaves exactly `FromTank`'s state |
| `FluidUtils.HandleTankTransfer` | src/main/java/jiraiyah/fluidutils/FluidUtils.java:36-41 | the in-place method returns `HandleTransfer`'s result and leaves exactly `HandleTransfer`'s state |
| `FluidUtils.JavaDiv` | src/main/java/jiraiyah/fluidutils/FluidUtils.java:223 | Java's long division: the quotient is truncated toward zero, for either sign |
| `FluidUtils.WrapLong` | src/main/java/jiraiyah/fluidutils/FluidUtils.java:234 | a value already in range is unchanged. Any other value is reduced modulo 2^64 into the `long` range |
| `FluidUtils.ConvertDropletsToMb` | src/main/java/jiraiyah/fluidutils/FluidUtils.java:221-224 | the result is a multiple of 1000: 1000 times the number of whole buckets in the input, rounded toward zero, for either sign, and it never overflows |
| `FluidUtils.ConvetMbToDroplets` | src/main/java/jiraiyah/fluidutils/FluidUtils.java:232-235 | within ±`MAX_EXACT_MB` the result is a multiple of BUCKET: one BUCKET for each whole thousand millibuckets, rounded toward zero, for either sign |
| `FluidUtils.IsOutputReceivable` | src/main/java/jiraiyah/fluidutils/FluidUtils.java:182-186 | the output slot is receivable iff its stack is empty or its count is below its item's max count; the item kind is not compared |
| `FluidUtils.IsTankEmpty` | src/main/java/jiraiyah/fluidutils/FluidUtils.java:170-173 | the tank is empty iff its amount is 0, whatever its variant |
| `FluidUtils.IsEmptyBucket` | src/main/java/jiraiyah/fluidutils/FluidUtils.java:195-198 | the slot's stack is of `Items.BUCKET` (an empty stack reports air, so it is not) |
| `FluidUtils.IsTankReceivable` | src/main/java/jiraiyah/fluidutils/FluidUtils.java:208-213 | the tank's amount is at most its capacity minus the item storage's amount. It requires the item to have a storage, since Java dereferences the lookup without a null check, and it ignores the variant |
| `FluidUtilsLemmas.TankReceivableIgnoresVariant` | src/main/java/jiraiyah/fluidutils/FluidUtils.java:212 | a tank holding another fluid, with room for the item's amount, is receivable although an insert of the item's fluid would be refused (0) |
| `FluidUtilsLemmas.OutputCountFitsInt` | src/main/java/jiraiyah/fluidutils/FluidUtils.java:184-185 | when every max count fits in a Java `int`, the output count written after any successful transfer fits as well |
| `FluidUtilsLemmas.GateRejectsBoth` | src/main/java/jiraiyah/fluidutils/FluidUtils.java:182-186 | with the output not receivable, both directions and the combined call fail and change nothing |
| `FluidUtilsLemmas.NoStorageRejectsBoth` | src/main/java/jiraiyah/fluidutils/FluidUtils.java:65-69 | an input item without a fluid storage makes the combined call fail and change nothing |
| `FluidUtilsLemmas.OutputStaysWithinOldMaxCount` | src/main/java/jiraiyah/fluidutils/FluidUtils.java:184-185 | after a successful transfer into a non-empty output, the new output count is at most the old stack's max count, whatever the new item kind |
| `FluidUtilsLemmas.ToTankLeavesEmptyBucket` | src/main/java/jiraiyah/fluidutils/FluidUtils.java:195-198 | after emptying an item into the tank, `IsEmptyBucket` holds for the output slot |
| `FluidUtilsLemmas.EmptyTankGivesNothing` | src/main/java/jiraiyah/fluidutils/FluidUtils.java:170-173 | filling from a tank with `IsTankEmpty` leaves the tank unchanged. From a consistent empty tank it always fails |
| `FluidUtilsLemmas.TankReceivableIffWholeInsert` | src/main/java/jiraiyah/fluidutils/FluidUtils.java:208-213 | for an item whose fluid the tank accepts, `IsTankReceivable` holds iff inserting the item's whole amount would be accepted in full. The item must have a storage, as the source dereferences the lookup without a check |
| `FluidUtilsLemmas.ZeroAgreementCommits` | src/main/java/jiraiyah/fluidutils/FluidUtils.java:143-158 | when the item-side extract and the tank-side insert are both 0, the transfer still succeeds: the tank is unchanged, the slots are rewritten and one sound is logged |
| `FluidUtilsLemmas.RunKeepsTankConsistent` | src/main/java/jiraiyah/fluidutils/FluidUtils.java:36-41 | over any sequence of ticks (arbitrary slot contents, one call each), a tank that starts consistent stays within capacity and blank exactly when empty, and its capacity never changes |
| `FluidUtilsLemmas.DropletsRoundTrip` | src/main/java/jiraiyah/fluidutils/FluidUtils.java:221-235 | for non-negative droplets, converting to millibuckets and back gives `d - d % BUCKET`. That is at most `d`, and equals `d` iff `d` is a whole number of buckets |
| `FluidUtilsLemmas.MbRoundTrip` | src/main/java/jiraiyah/fluidutils/FluidUtils.java:221-235 | for millibuckets in [0, `MAX_EXACT_MB`], converting to droplets and back rounds down to a multiple of 1000 |
| `FluidUtilsLemmas.MbToDropletsWrapsPastLimit` | src/main/java/jiraiyah/fluidutils/FluidUtils.java:232-235 | at `MAX_EXACT_MB + 1` the conversion overflows to a negative `long`, so the exact range above is tight |
| `Scenarios.WaterBucketFillsEmptyTank` | src/main/java/jiraiyah/fluidutils/FluidUtils.java:114-163 | one water bucket emptied into an empty one-bucket tank gives (water, 81000), an empty input, one bucket in the output, a dirty inventory and one empty sound |
| `Scenarios.WaterBucketRefusedByFullLavaTank` | src/main/java/jiraiyah/fluidutils/FluidUtils.java:135-162 | a water bucket against a full lava tank: the insert yields 0 against an extract of 81000, so nothing changes |
| `Scenarios.FullOutputBlocksTransfer` | src/main/java/jiraiyah/fluidutils/FluidUtils.java:118-119 | an output slot holding a full stack of buckets blocks the combined call before any transaction opens |
| `Scenarios.EmptyBucketDrainsWaterTank` | src/main/java/jiraiyah/fluidutils/FluidUtils.java:54-101 | an empty bucket against a tank holding one bucket of water: emptying fails, filling drains the tank to (blank, 0), and a water bucket lands in the output with one fill sound |

## Left out

- `FluidStackRenderer.java` is not part of this model. It is presentation
  code: shader and texture calls, sprite drawing on the screen, tooltip text,
  and a float-based height computation.
- The Fabric lookups `ContainerItemContext.withConstant` and
  `FluidStorage.ITEM` are not modelled by their code. They are represented by
  the `Game.fluidStorage` parameter, and an item's storage view is an
  arbitrary pair of simulated insert/extract amounts.
- An item storage with no views is not modelled. Its `iterator().next()` would
  throw.
- The tank follows the code of Fabric's `SingleVariantStorage`, which is not
  part of this model. Capacity is taken to be the same for every variant,
  `canInsert`/`canExtract` are taken to accept everything, and the
  `onFinalCommit` hook is not modelled.
- The transaction covers only the tank. The item side runs on a constant
  context, so it has no state to roll back.
- `ImplementedInventory` is not part of this model. `getStack`, `setStack`,
  `removeStack(slot, 1)` and `markDirty` are modelled as plain slot reads,
  replacements, a one-item split and a flag, so any clamping or extra dirty
  marking inside that interface is not captured. A slot index outside the
  inventory makes Java throw; the methods require indices in range.
- The world and sound plumbing is reduced to a log of (fill or empty, fluid,
  position) events. Sound category, volume, pitch and the distance flag are
  not modelled.
- Tank amounts and stack counts are unbounded integers. The output's
  `count + 1` cannot pass the Java `int` range: the gate demands
  count < max count, and an empty output counts as 0
  (`OutputCountFitsInt`).
- `MILLI_BUCKET` is declared as `BUCKET / 1000` (81) and nothing is proved
  about it.
- There is no concurrency: every call runs to completion on one thread.
