/** Shared shapes: the suggestion summary handed to the HTTP layer, and the
    closed mapping between the API's lower-case category values and the
    upper-case enum values stored in the database. Category values are plain
    strings here because at run time any string can reach the mapping, and
    both directions have a default branch for the values outside the set.
 */
module Types {
  import opened Outcomes

  /** The API-facing vehicle category values. */
  const CATEGORY_VALUES: set<string> := {"car", "motorcycle", "truck", "other"}

  /** The persisted enum values. */
  const STORED_CATEGORIES: set<string> := {"CAR", "MOTORCYCLE", "TRUCK", "OTHER"}

  /** One entry of the full upcoming-milestone list. */
  datatype UpcomingItem = UpcomingItem(kmMark: int, checklist: seq<string>, overdue: bool)

  /** The engine's output. The rate is the vehicle's own, passed through
      unchanged, so it is None when the vehicle's rate is null (a value the
      model admits although the declared type says number). The due date is a time value in
      milliseconds; it is present on every summary the engine returns (see
      BuildSuggestions). */
  datatype SuggestionSummary = SuggestionSummary(
    estimatedCurrentKm: int,
    monthlyAverageKm: Option<real>,
    nextMaintenanceKm: int,
    kmToNext: int,
    overdue: bool,
    estimatedDueDate: int,
    checklist: seq<string>,
    upcoming: seq<UpcomingItem>
  )

  /** API category value to stored enum value; anything unrecognised is
      stored as OTHER. */
  function VehicleCategoryToPrisma(value: string): (stored: string)
    ensures stored in STORED_CATEGORIES
    ensures stored == "CAR" <==> value == "car"
    ensures stored == "MOTORCYCLE" <==> value == "motorcycle"
    ensures stored == "TRUCK" <==> value == "truck"
  {
    match value
    case "car" => "CAR"
    case "motorcycle" => "MOTORCYCLE"
    case "truck" => "TRUCK"
    case _ => "OTHER"
  }

  /** Stored enum value to API category value; anything unrecognised reads
      back as other. */
  function VehicleCategoryFromPrisma(stored: string): (value: string)
    ensures value in CATEGORY_VALUES
    ensures value == "car" <==> stored == "CAR"
    ensures value == "motorcycle" <==> stored == "MOTORCYCLE"
    ensures value == "truck" <==> stored == "TRUCK"
  {
    match stored
    case "CAR" => "car"
    case "MOTORCYCLE" => "motorcycle"
    case "TRUCK" => "truck"
    case _ => "other"
  }

  /** Storing a category value and reading it back gives the value again. */
  lemma CategoryRoundTripFromValue(value: string)
    requires value in CATEGORY_VALUES
    ensures VehicleCategoryFromPrisma(VehicleCategoryToPrisma(value)) == value
  {
  }

  /** Reading a stored enum value and storing it again gives the enum value again. */
  lemma CategoryRoundTripFromStored(stored: string)
    requires stored in STORED_CATEGORIES
    ensures VehicleCategoryToPrisma(VehicleCategoryFromPrisma(stored)) == stored
  {
  }

  /** Outside the specific values both mappings collapse onto the generic
      category (the round trips on the closed sets are the two lemmas above). */
  lemma CategoryMappingDefaults(s: string)
    ensures s !in CATEGORY_VALUES - {"other"} ==> VehicleCategoryToPrisma(s) == "OTHER"
    ensures s !in STORED_CATEGORIES - {"OTHER"} ==> VehicleCategoryFromPrisma(s) == "other"
  {
  }

  /** Distinct category values are stored as distinct enum values. */
  lemma CategoryToPrismaInjective(a: string, b: string)
    requires a in CATEGORY_VALUES && b in CATEGORY_VALUES
    requires VehicleCategoryToPrisma(a) == VehicleCategoryToPrisma(b)
    ensures a == b
  {
    CategoryRoundTripFromValue(a);
    CategoryRoundTripFromValue(b);
  }
}
