/**
 * The admin's shelter table: the "Full" badge and the occupancy dialog.
 * The dialog starts from the shelter's current occupancy and passes a new
 * value on only when it lies between 0 and the capacity, both included;
 * then it closes. Out-of-range values are refused and the dialog stays open.
 */
module ShelterManagementTable {
  import opened Wrappers
  import opened Types

  /** `currentOccupancy >= capacity`; within the accepted bounds, full means exactly at capacity. */
  predicate IsFull(s: Shelter): (full: bool)
    ensures 0 <= s.currentOccupancy <= s.capacity ==> (full <==> s.currentOccupancy == s.capacity)
    ensures s.capacity <= 0 <= s.currentOccupancy ==> full
  {
    s.currentOccupancy >= s.capacity
  }

  /** The dialog's bounds check. */
  function Accepts(capacity: int, n: int): (ok: bool)
    ensures ok <==> 0 <= n <= capacity
  {
    !(n > capacity || n < 0)
  }

  /** After an accepted update the shelter is full exactly when it was set to its capacity. */
  lemma AcceptedUpdateFullIff(s: Shelter, n: int)
    requires Accepts(s.capacity, n)
    ensures IsFull(s.(currentOccupancy := n)) <==> n == s.capacity
    ensures 0 <= s.(currentOccupancy := n).currentOccupancy <= s.capacity
  {
  }

  /** What `onUpdate` receives. */
  datatype OccupancyUpdate = OccupancyUpdate(shelterId: string, newOccupancy: int)

  /** `UpdateOccupancyDialog`. */
  class OccupancyDialog {
    const shelter: Shelter
    var isOpen: bool
    var newOccupancy: int

    constructor(s: Shelter)
      ensures shelter == s && !isOpen && newOccupancy == s.currentOccupancy
    {
      shelter := s;
      isOpen := false;
      newOccupancy := s.currentOccupancy;
    }

    method Open()
      modifies this
      ensures isOpen && newOccupancy == old(newOccupancy)
    {
      isOpen := true;
    }

    /** The number input's `onChange`. */
    method SetNewOccupancy(n: int)
      modifies this
      ensures newOccupancy == n && isOpen == old(isOpen)
    {
      newOccupancy := n;
    }

    method Cancel()
      modifies this
      ensures !isOpen && newOccupancy == old(newOccupancy)
    {
      isOpen := false;
    }

    /**
     * `handleUpdate`: an accepted value is handed to `onUpdate` once with the
     * shelter's id and the dialog closes; a refused one is not handed on and
     * the dialog stays as it was.
     */
    method HandleUpdate() returns (update: Option<OccupancyUpdate>)
      modifies this
      ensures update.Some? <==> Accepts(shelter.capacity, newOccupancy)
      ensures update.Some? ==> update.value == OccupancyUpdate(shelter.id, newOccupancy) && !isOpen
      ensures update.None? ==> isOpen == old(isOpen)
      ensures newOccupancy == old(newOccupancy)
    {
      if newOccupancy > shelter.capacity || newOccupancy < 0 {
        return None;
      }
      update := Some(OccupancyUpdate(shelter.id, newOccupancy));
      isOpen := false;
    }
  }
}
