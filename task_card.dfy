/**
 * A volunteer's task card. Its "delivered" flag is local state: it starts
 * from the request's status and marking the request as delivered only sets
 * the flag. The card holds no reference to the store, so nothing is
 * written back and the request's status stays what it was.
 */
module TaskCard {
  import opened Types

  class Card {
    const request: AidRequest
    var isDelivered: bool
    var isSubmitting: bool

    constructor(r: AidRequest)
      ensures request == r
      ensures isDelivered <==> r.status == Delivered
      ensures !isSubmitting
    {
      request := r;
      isDelivered := r.status == Delivered;
      isSubmitting := false;
    }

    /** The footer offers "Mark as Delivered" only while the flag is down. */
    predicate OffersMarkAsDelivered(): (offers: bool)
      reads this
      ensures offers <==> !isDelivered
    {
      !isDelivered
    }

    /** `handleMarkAsDelivered`: raises the flag and ends the submission; the request is untouched. */
    method HandleMarkAsDelivered()
      modifies this
      ensures isDelivered && !isSubmitting
      ensures !OffersMarkAsDelivered()
    {
      isSubmitting := true;
      isDelivered := true;
      isSubmitting := false;
    }
  }
}
