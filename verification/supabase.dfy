/**
 * The database record types of the room-listing application: the closed
 * literal unions of a listing's attributes and the `RoomListing` and `User`
 * records, with their required and optional fields.
 */
module Supabase {
  import opened Wrappers

  type OwnerId = string

  /** A server timestamp, represented by the instant it denotes. */
  type Timestamp = nat

  datatype PropertyType = OneBhk | TwoBhk | OneBed | TwoBed | ThreeBed
  datatype TenantType = Bachelor | Family | Girls | WorkingProfessionals
  datatype OwnerType = DirectOwner | Agent
  datatype Role = RoomOwner | RoomFinder

  const PropertyTypeTexts: set<string> := {"1 BHK", "2 BHK", "1 Bed", "2 Bed", "3 Bed"}
  const TenantTypeTexts: set<string> := {"Bachelor", "Family", "Girls", "Working professionals"}
  const OwnerTypeTexts: set<string> := {"Direct Owner", "Agent"}
  const RoleTexts: set<string> := {"room_owner", "room_finder"}

  /** The string literal that stands for each property type in a stored row. */
  function PropertyTypeText(p: PropertyType): string {
    match p
    case OneBhk => "1 BHK"
    case TwoBhk => "2 BHK"
    case OneBed => "1 Bed"
    case TwoBed => "2 Bed"
    case ThreeBed => "3 Bed"
  }

  /** Reads a property type from its literal; any other text is not a member of the union. */
  function ParsePropertyType(s: string): (r: Option<PropertyType>)
    ensures r.Some? <==> s in PropertyTypeTexts
    ensures r.Some? ==> PropertyTypeText(r.value) == s
  {
    if s == "1 BHK" then Some(OneBhk)
    else if s == "2 BHK" then Some(TwoBhk)
    else if s == "1 Bed" then Some(OneBed)
    else if s == "2 Bed" then Some(TwoBed)
    else if s == "3 Bed" then Some(ThreeBed)
    else None
  }

  function TenantTypeText(t: TenantType): string {
    match t
    case Bachelor => "Bachelor"
    case Family => "Family"
    case Girls => "Girls"
    case WorkingProfessionals => "Working professionals"
  }

  function ParseTenantType(s: string): (r: Option<TenantType>)
    ensures r.Some? <==> s in TenantTypeTexts
    ensures r.Some? ==> TenantTypeText(r.value) == s
  {
    if s == "Bachelor" then Some(Bachelor)
    else if s == "Family" then Some(Family)
    else if s == "Girls" then Some(Girls)
    else if s == "Working professionals" then Some(WorkingProfessionals)
    else None
  }

  function OwnerTypeText(o: OwnerType): string {
    match o
    case DirectOwner => "Direct Owner"
    case Agent => "Agent"
  }

  function ParseOwnerType(s: string): (r: Option<OwnerType>)
    ensures r.Some? <==> s in OwnerTypeTexts
    ensures r.Some? ==> OwnerTypeText(r.value) == s
  {
    if s == "Direct Owner" then Some(DirectOwner)
    else if s == "Agent" then Some(Agent)
    else None
  }

  function RoleText(r: Role): string {
    match r
    case RoomOwner => "room_owner"
    case RoomFinder => "room_finder"
  }

  function ParseRole(s: string): (r: Option<Role>)
    ensures r.Some? <==> s in RoleTexts
    ensures r.Some? ==> RoleText(r.value) == s
  {
    if s == "room_owner" then Some(RoomOwner)
    else if s == "room_finder" then Some(RoomFinder)
    else None
  }

  /** Every member of each union is written as one of its literals and read back as itself. */
  lemma LiteralRoundTrips(p: PropertyType, t: TenantType, o: OwnerType, r: Role)
    ensures PropertyTypeText(p) in PropertyTypeTexts && ParsePropertyType(PropertyTypeText(p)) == Some(p)
    ensures TenantTypeText(t) in TenantTypeTexts && ParseTenantType(TenantTypeText(t)) == Some(t)
    ensures OwnerTypeText(o) in OwnerTypeTexts && ParseOwnerType(OwnerTypeText(o)) == Some(o)
    ensures RoleText(r) in RoleTexts && ParseRole(RoleText(r)) == Some(r)
  {
  }

  /**
   * A row of the `room_listings` table. `owner_id`, `title`, `location`,
   * `price`, the three literal unions, `contact_number` and `images` are
   * required; `id`, `description` and the two timestamps are optional.
   */
  datatype RoomListing = RoomListing(
    id: Option<string>,
    owner_id: OwnerId,
    title: string,
    location: string,
    price: real,
    property_type: PropertyType,
    tenant_type: TenantType,
    owner_type: OwnerType,
    contact_number: string,
    images: seq<string>,
    description: Option<string>,
    created_at: Option<Timestamp>,
    updated_at: Option<Timestamp>
  )

  /** An application user; only `id` and `role` are required. */
  datatype User = User(
    id: string,
    email: Option<string>,
    phone: Option<string>,
    full_name: Option<string>,
    role: Role,
    created_at: Option<Timestamp>
  )
}
