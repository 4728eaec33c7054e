/**
 * The part of Fabric's transfer API that the bucket/tank transfer calls
 * through: fluid variants, the single-variant storage behind the tank, the
 * storage view an item exposes, and the transaction that makes tentative
 * changes to the tank undoable.
 */
module TransferApi {

  /** FluidConstants.BUCKET: the number of droplets in one bucket. */
  const BUCKET: int := 81000

  /** A fluid variant; `Blank` is the variant of "no fluid". */
  datatype FluidVariant = Blank | Fluid(id: nat) {
    predicate IsBlank() { Blank? }
  }

  /** The contents of a single-variant storage: its variant, amount and capacity. */
  datatype StorageView = StorageView(resource: FluidVariant, amount: int, capacity: int)

  /** The amount never leaves [0, capacity]. */
  predicate Bounded(s: StorageView) {
    0 <= s.amount <= s.capacity
  }

  /** Bounded, and blank exactly when empty: the state the storage keeps. */
  predicate Consistent(s: StorageView) {
    Bounded(s) && (s.resource.IsBlank() <==> s.amount == 0)
  }

  /** The storage takes `v`: it holds `v` already, or it holds nothing. */
  predicate Accepts(s: StorageView, v: FluidVariant) {
    s.resource == v || s.resource.IsBlank()
  }

  function Min(a: int, b: int): int { if a <= b then a else b }

  function Max(a: int, b: int): int { if a <= b then b else a }

  /**
   * How much SingleVariantStorage.insert accepts of `maxAmount` units of `v`.
   * The storage's own precondition refuses a blank variant and a negative amount.
   */
  function InsertedAmount(s: StorageView, v: FluidVariant, maxAmount: int): (n: int)
    requires !v.IsBlank() && 0 <= maxAmount
    ensures 0 <= n <= maxAmount
    ensures n > 0 ==> Accepts(s, v) && s.amount + n <= s.capacity
    ensures Accepts(s, v) && s.amount + maxAmount <= s.capacity ==> n == maxAmount
    ensures Accepts(s, v) && s.amount < s.capacity ==> n == maxAmount || s.amount + n == s.capacity
  {
    if Accepts(s, v) then Max(0, Min(maxAmount, s.capacity - s.amount)) else 0
  }

  /** The storage after SingleVariantStorage.insert of `maxAmount` units of `v`. */
  function AfterInsert(s: StorageView, v: FluidVariant, maxAmount: int): (t: StorageView)
    requires !v.IsBlank() && 0 <= maxAmount
    ensures t.capacity == s.capacity
    ensures InsertedAmount(s, v, maxAmount) == 0 ==> t == s
    ensures InsertedAmount(s, v, maxAmount) > 0 ==> t.resource == v
    ensures !s.resource.IsBlank() ==> t.amount == s.amount + InsertedAmount(s, v, maxAmount)
    ensures Consistent(s) ==> Consistent(t) && t.amount == s.amount + InsertedAmount(s, v, maxAmount)
  {
    var n := InsertedAmount(s, v, maxAmount);
    if n <= 0 then s
    else if s.resource.IsBlank() then StorageView(v, n, s.capacity)
    else StorageView(s.resource, s.amount + n, s.capacity)
  }

  /** How much SingleVariantStorage.extract hands out of `maxAmount` units of `v`. */
  function ExtractedAmount(s: StorageView, v: FluidVariant, maxAmount: int): (n: int)
    requires !v.IsBlank() && 0 <= maxAmount
    ensures 0 <= n <= maxAmount
    ensures n > 0 ==> s.resource == v && n <= s.amount
    ensures s.resource == v && maxAmount <= s.amount ==> n == maxAmount
    ensures s.resource == v && 0 <= s.amount ==> n == maxAmount || n == s.amount
  {
    if s.resource == v then Max(0, Min(maxAmount, s.amount)) else 0
  }

  /**
   * The storage after SingleVariantStorage.extract of `maxAmount` units of `v`;
   * a storage drained to zero forgets its variant.
   */
  function AfterExtract(s: StorageView, v: FluidVariant, maxAmount: int): (t: StorageView)
    requires !v.IsBlank() && 0 <= maxAmount
    ensures t.capacity == s.capacity
    ensures t.amount == s.amount - ExtractedAmount(s, v, maxAmount)
    ensures ExtractedAmount(s, v, maxAmount) == 0 ==> t == s
    ensures ExtractedAmount(s, v, maxAmount) > 0 ==>
              (t.amount == 0 ==> t.resource.IsBlank()) && (t.amount != 0 ==> t.resource == s.resource)
    ensures Consistent(s) ==> Consistent(t)
  {
    var n := ExtractedAmount(s, v, maxAmount);
    if n <= 0 then s
    else if s.amount - n == 0 then StorageView(Blank, 0, s.capacity)
    else StorageView(s.resource, s.amount - n, s.capacity)
  }

  /**
   * The fluid storage an item stack exposes (one storage view): its current
   * contents and the amounts a simulated insert or extract would move. The
   * item's context is constant, so these calls change nothing.
   */
  datatype ItemFluidView = ItemFluidView(
    resource: FluidVariant,
    amount: int,
    insert: (FluidVariant, int) -> int,
    extract: (FluidVariant, int) -> int)

  /** An outer transaction over the tank: the tank's state when it was opened. */
  datatype Transaction = Transaction(snapshot: StorageView)

  /** The tank: a single-variant fluid storage whose fields are updated in place. */
  class Tank {
    var variant: FluidVariant
    var amount: int
    const capacity: int

    function View(): StorageView
      reads this
    {
      StorageView(variant, amount, capacity)
    }

    constructor (capacity: int)
      ensures View() == StorageView(Blank, 0, capacity)
    {
      this.capacity := capacity;
      variant := Blank;
      amount := 0;
    }

    /** Opens an outer transaction: remembers the state to restore on abort. */
    method OpenOuter() returns (tx: Transaction)
      ensures tx.snapshot == View()
    {
      tx := Transaction(View());
    }

    /** Closes `tx` without committing: every change made since it opened is undone. */
    method Abort(tx: Transaction)
      requires tx.snapshot.capacity == capacity
      modifies this
      ensures View() == tx.snapshot
    {
      variant := tx.snapshot.resource;
      amount := tx.snapshot.amount;
    }

    /** SingleVariantStorage.insert, tentatively, under the open transaction. */
    method Insert(v: FluidVariant, maxAmount: int) returns (inserted: int)
      requires !v.IsBlank() && 0 <= maxAmount
      modifies this
      ensures inserted == InsertedAmount(old(View()), v, maxAmount)
      ensures View() == AfterInsert(old(View()), v, maxAmount)
    {
      inserted := 0;
      if variant == v || variant.IsBlank() {
        inserted := Min(maxAmount, capacity - amount);
        if inserted > 0 {
          if variant.IsBlank() {
            variant := v;
            amount := inserted;
          } else {
            amount := amount + inserted;
          }
        } else {
          inserted := 0;
        }
      }
    }

    /** SingleVariantStorage.extract, tentatively, under the open transaction. */
    method Extract(v: FluidVariant, maxAmount: int) returns (extracted: int)
      requires !v.IsBlank() && 0 <= maxAmount
      modifies this
      ensures extracted == ExtractedAmount(old(View()), v, maxAmount)
      ensures View() == AfterExtract(old(View()), v, maxAmount)
    {
      extracted := 0;
      if variant == v {
        extracted := Min(maxAmount, amount);
        if extracted > 0 {
          amount := amount - extracted;
          if amount == 0 {
            variant := Blank;
          }
        } else {
          extracted := 0;
        }
      }
    }
  }
}
