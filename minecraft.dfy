/**
 * The Minecraft side the transfer touches: items, item stacks, the block
 * entity's inventory and the world that plays sounds.
 */
module Minecraft {
  import opened TransferApi

  /** Item kinds: `Air` (what an empty slot holds), the empty bucket, and every other item. */
  datatype Item = Air | Bucket | Other(id: nat)

  /** An item stack; a stack of air or of a non-positive count is empty. */
  datatype ItemStack = ItemStack(item: Item, count: int) {

    predicate IsEmpty() { item == Air || count <= 0 }

    /** ItemStack.getItem: air for an empty stack. */
    function GetItem(): Item { if IsEmpty() then Air else item }

    /** ItemStack.getCount: zero for an empty stack. */
    function GetCount(): nat { if IsEmpty() then 0 else count }

    predicate IsOf(i: Item) { GetItem() == i }

    /**
     * What is left in a slot after one item is split off it
     * (Inventories.splitStack with amount 1): an empty stack is left alone.
     */
    function SplitOne(): (s: ItemStack)
      ensures s.GetCount() == if IsEmpty() then 0 else GetCount() - 1
      ensures !s.IsEmpty() ==> s.item == item
    {
      if IsEmpty() then this else ItemStack(item, count - 1)
    }
  }

  datatype SoundKind = FillSound | EmptySound

  datatype BlockPos = BlockPos(x: int, y: int, z: int)

  /** A sound played at a position: the fill or empty sound of a fluid variant. */
  datatype SoundEvent = SoundEvent(kind: SoundKind, fluid: FluidVariant, pos: BlockPos)

  /** The block entity's inventory: a fixed number of slots, and a changed flag. */
  class Inventory {
    const items: array<ItemStack>
    var dirty: bool

    constructor (size: nat)
      ensures items.Length == size && fresh(items) && !dirty
      ensures forall k :: 0 <= k < size ==> items[k] == ItemStack(Air, 0)
    {
      items := new ItemStack[size](_ => ItemStack(Air, 0));
      dirty := false;
    }

    function GetStack(slot: int): ItemStack
      requires 0 <= slot < items.Length
      reads items
    {
      items[slot]
    }

    /** removeStack(slot, 1): one item is taken out of the slot. */
    method RemoveStack(slot: int)
      requires 0 <= slot < items.Length
      modifies items
      ensures items[..] == old(items[..])[slot := old(items[slot]).SplitOne()]
    {
      items[slot] := items[slot].SplitOne();
    }

    /** setStack(slot, stack): the slot now holds `stack`. */
    method SetStack(slot: int, stack: ItemStack)
      requires 0 <= slot < items.Length
      modifies items
      ensures items[..] == old(items[..])[slot := stack]
    {
      items[slot] := stack;
    }

    /** markDirty: the inventory has changed and must be saved. */
    method MarkDirty()
      modifies this
      ensures dirty
    {
      dirty := true;
    }
  }

  /** The world, seen only through the sounds it has been asked to play. */
  class World {
    var sounds: seq<SoundEvent>

    constructor ()
      ensures sounds == []
    {
      sounds := [];
    }

    method PlaySound(sound: SoundEvent)
      modifies this
      ensures sounds == old(sounds) + [sound]
    {
      sounds := sounds + [sound];
    }
  }
}
