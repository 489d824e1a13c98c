/**
 * The shared entity types of the relief platform: users and their roles,
 * aid requests with their lifecycle status, disaster alerts, shelters and
 * inventory rows. Timestamps are integers (milliseconds); strings are
 * sequences of characters.
 */
module Types {
  import opened Wrappers

  datatype UserRole = Victim | Volunteer | Admin

  /** The role as the string stored in profiles and used in routes. */
  function RoleName(role: UserRole): string {
    match role
    case Victim => "victim"
    case Volunteer => "volunteer"
    case Admin => "admin"
  }

  /** Reads a role from its string form; any other string is not a role. */
  function ParseRole(s: string): (r: Option<UserRole>)
    ensures r.Some? ==> RoleName(r.value) == s
  {
    if s == "victim" then Some(Victim)
    else if s == "volunteer" then Some(Volunteer)
    else if s == "admin" then Some(Admin)
    else None
  }

  /** Every role survives a round trip through its string form. */
  lemma {:induction false} ParseRoleName(role: UserRole)
    ensures ParseRole(RoleName(role)) == Some(role)
  {
    match role
    case Victim =>
    case Volunteer =>
      assert RoleName(role) != "victim";
    case Admin =>
      assert RoleName(role) != "victim" && RoleName(role) != "volunteer";
  }

  datatype User = User(
    id: string,
    name: string,
    email: string,
    role: UserRole,
    phoneNumber: Option<string>,
    location: Option<string>,
    availability: Option<bool>)

  /** The eight item kinds a request may ask for; inventory rows use the same kinds. */
  datatype AidRequestItem = Food | Water | Medicine | MedicalHelp | BoatTransport | LifeJackets | Blankets | Tents

  /** The item kind as the string the app stores and displays. */
  function ItemId(item: AidRequestItem): string {
    match item
    case Food => "food"
    case Water => "water"
    case Medicine => "medicine"
    case MedicalHelp => "medical help"
    case BoatTransport => "boat transport"
    case LifeJackets => "life jackets"
    case Blankets => "blankets"
    case Tents => "tents"
  }

  datatype RequestStatus = Pending | Assigned | Delivered

  /**
   * An aid request. The assignment fields are optional and the type does not
   * tie them to the status: any combination is a value of this type.
   */
  datatype AidRequest = AidRequest(
    id: string,
    victimId: string,
    victimName: string,
    location: string,
    items: seq<AidRequestItem>,
    status: RequestStatus,
    assignedVolunteerId: Option<string>,
    assignedVolunteerName: Option<string>,
    createdAt: int)

  datatype DisasterType = Flood | Earthquake | Fire | Heatwave

  function DisasterTypeName(d: DisasterType): string {
    match d
    case Flood => "flood"
    case Earthquake => "earthquake"
    case Fire => "fire"
    case Heatwave => "heatwave"
  }

  /** The enum check of the alert form: only the four type names are accepted. */
  function ParseDisasterType(s: string): (r: Option<DisasterType>)
    ensures r.Some? ==> DisasterTypeName(r.value) == s
  {
    if s == "flood" then Some(Flood)
    else if s == "earthquake" then Some(Earthquake)
    else if s == "fire" then Some(Fire)
    else if s == "heatwave" then Some(Heatwave)
    else None
  }

  lemma {:induction false} ParseDisasterTypeName(d: DisasterType)
    ensures ParseDisasterType(DisasterTypeName(d)) == Some(d)
  {
    match d
    case Flood =>
    case Earthquake =>
      assert DisasterTypeName(d) != "flood";
    case Fire =>
      assert DisasterTypeName(d) != "flood" && DisasterTypeName(d) != "earthquake";
    case Heatwave =>
      assert DisasterTypeName(d) != "flood" && DisasterTypeName(d) != "earthquake";
      assert DisasterTypeName(d) != "fire";
  }

  datatype DisasterAlert = DisasterAlert(id: string, alertType: DisasterType, message: string, createdAt: int)

  /** A shelter; its geographic coordinates are not modelled. */
  datatype Shelter = Shelter(id: string, name: string, location: string, capacity: int, currentOccupancy: int)

  datatype InventoryItem = InventoryItem(id: AidRequestItem, name: string, quantity: int, threshold: int)

  /** The signed-in user as the authentication service reports it. */
  datatype AuthUser = AuthUser(uid: string, email: Option<string>, displayName: Option<string>, phoneNumber: Option<string>)
}
