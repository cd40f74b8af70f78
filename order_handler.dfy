/** `OrderEvenHandler`: before a new order is first stored, both of its timestamps are cleared. */
module OrderEvents {
  import opened Wrappers
  import opened OrderModel
  import OrderValidation

  /** An order with no acceptance or completion time and every other field as it was. */
  function ClearTimestamps(o: OrderRecord): (r: OrderRecord)
    ensures r.acceptedAt.None? && r.completedAt.None?
    ensures r.id == o.id && r.clientName == o.clientName && r.clientPhone == o.clientPhone
    ensures r.clientEmail == o.clientEmail && r.description == o.description && r.pictures == o.pictures
  {
    o.(acceptedAt := None, completedAt := None)
  }

  /** Clearing twice is clearing once. */
  lemma ClearIsIdempotent(o: OrderRecord)
    ensures ClearTimestamps(ClearTimestamps(o)) == ClearTimestamps(o)
  {
  }

  /** An order whose timestamps are already unset is left as it is. */
  lemma ClearKeepsUnsetOrder(o: OrderRecord)
    ensures ClearTimestamps(o) == o <==> o.acceptedAt.None? && o.completedAt.None?
  {
  }

  /** Clearing the timestamps never changes which field errors the validator reports. */
  lemma ClearKeepsValidation(o: OrderRecord)
    ensures OrderValidation.ValidationErrors(ClearTimestamps(o)) == OrderValidation.ValidationErrors(o)
  {
  }

  /** `handleBeforeCreate`: sets `acceptedAt` and then `completedAt` to `null`. */
  method HandleBeforeCreate(order: Order)
    modifies order
    ensures order.Record() == ClearTimestamps(old(order.Record()))
  {
    order.acceptedAt := None;
    order.completedAt := None;
  }
}
