/**
 * The hosted document database as the components use it: collections of
 * documents keyed by id. Requests, alerts and shelters are typed records
 * whose `id` field is their key; the three profile collections hold
 * loosely shaped documents, written with a merging `set`.
 *
 * A write the database rejects (an update of a document that does not
 * exist) leaves every collection as it was.
 */
module Store {
  import opened Types

  /** A document field value: a string, a boolean, a number or a list of strings. */
  datatype Field = Str(s: string) | Bool(b: bool) | Num(n: int) | List(items: seq<string>)

  /** A loosely shaped document: field name to value. */
  type Doc = map<string, Field>

  /** The three profile collections, one per role. */
  datatype ProfileCollection = Victims | Volunteers | Admins

  class ReliefStore {
    var requests: map<string, AidRequest>
    var alerts: map<string, DisasterAlert>
    var shelters: map<string, Shelter>
    var victims: map<string, Doc>
    var volunteers: map<string, Doc>
    var admins: map<string, Doc>

    /** Every typed document carries its own key as its id. */
    ghost predicate Valid()
      reads this
    {
      && (forall id :: id in requests ==> requests[id].id == id)
      && (forall id :: id in alerts ==> alerts[id].id == id)
      && (forall id :: id in shelters ==> shelters[id].id == id)
    }

    constructor()
      ensures Valid()
      ensures requests == map[] && alerts == map[] && shelters == map[]
      ensures victims == map[] && volunteers == map[] && admins == map[]
    {
      requests, alerts, shelters := map[], map[], map[];
      victims, volunteers, admins := map[], map[], map[];
    }

    /** The profile collection `c`. */
    function Profiles(c: ProfileCollection): map<string, Doc>
      reads this
    {
      match c
      case Victims => victims
      case Volunteers => volunteers
      case Admins => admins
    }

    /** `addDoc(collection('requests'), r)` under the id the database generated. */
    method AddRequest(id: string, r: AidRequest)
      requires Valid()
      requires id !in requests
      modifies this
      ensures Valid()
      ensures requests == old(requests)[id := r.(id := id)]
      ensures alerts == old(alerts) && shelters == old(shelters)
      ensures victims == old(victims) && volunteers == old(volunteers) && admins == old(admins)
    {
      requests := requests[id := r.(id := id)];
    }

    /** `addDoc(collection('alerts'), a)` under the id the database generated. */
    method AddAlert(id: string, a: DisasterAlert)
      requires Valid()
      requires id !in alerts
      modifies this
      ensures Valid()
      ensures alerts == old(alerts)[id := a.(id := id)]
      ensures requests == old(requests) && shelters == old(shelters)
      ensures victims == old(victims) && volunteers == old(volunteers) && admins == old(admins)
    {
      alerts := alerts[id := a.(id := id)];
    }

    /** `updateDoc(doc('requests', id), ...)`: applies `f` to the stored request, if there is one. */
    method UpdateRequest(id: string, f: AidRequest -> AidRequest)
      requires Valid()
      requires forall r :: f(r).id == r.id
      modifies this
      ensures Valid()
      ensures id in old(requests) ==> requests == old(requests)[id := f(old(requests)[id])]
      ensures id !in old(requests) ==> requests == old(requests)
      ensures alerts == old(alerts) && shelters == old(shelters)
      ensures victims == old(victims) && volunteers == old(volunteers) && admins == old(admins)
    {
      if id in requests {
        requests := requests[id := f(requests[id])];
      }
    }

    /** `updateDoc(doc('shelters', id), { currentOccupancy: n })`, if the shelter exists. */
    method UpdateShelterOccupancy(id: string, n: int)
      requires Valid()
      modifies this
      ensures Valid()
      ensures id in old(shelters) ==> shelters == old(shelters)[id := old(shelters)[id].(currentOccupancy := n)]
      ensures id !in old(shelters) ==> shelters == old(shelters)
      ensures requests == old(requests) && alerts == old(alerts)
      ensures victims == old(victims) && volunteers == old(volunteers) && admins == old(admins)
    {
      if id in shelters {
        shelters := shelters[id := shelters[id].(currentOccupancy := n)];
      }
    }

    /**
     * `setDoc(doc(c, uid), fields, { merge: true })`: the given fields
     * overwrite, the document's other fields stay, and a missing document
     * is created.
     */
    method SetProfile(c: ProfileCollection, uid: string, fields: Doc)
      modifies this
      ensures Profiles(c) == old(Profiles(c))[uid := Merge(if uid in old(Profiles(c)) then old(Profiles(c))[uid] else map[], fields)]
      ensures forall other :: other != c ==> Profiles(other) == old(Profiles(other))
      ensures requests == old(requests) && alerts == old(alerts) && shelters == old(shelters)
      ensures Valid() == old(Valid())
    {
      var existing := if uid in Profiles(c) then Profiles(c)[uid] else map[];
      var merged := Merge(existing, fields);
      match c
      case Victims => victims := victims[uid := merged];
      case Volunteers => volunteers := volunteers[uid := merged];
      case Admins => admins := admins[uid := merged];
    }
  }

  /** A merging write: every written field takes its new value, every other field keeps its old one. */
  function Merge(existing: Doc, fields: Doc): (d: Doc)
    ensures d.Keys == existing.Keys + fields.Keys
    ensures forall f :: f in fields ==> d[f] == fields[f]
    ensures forall f :: f in existing && f !in fields ==> d[f] == existing[f]
  {
    map f | f in existing.Keys + fields.Keys :: if f in fields then fields[f] else existing[f]
  }
}
