/** The record and view-state shapes shared by every component. */
module Types {

  datatype Option<+T> = None | Some(value: T)

  datatype Specialty = Specialty(name: string)

  datatype ClinicAddress = ClinicAddress(
    locality: string,
    city: string,
    addressLine1: string,
    location: string,
    logoUrl: string)

  datatype Clinic = Clinic(name: string, address: ClinicAddress)

  /** One practitioner record, as delivered by the directory endpoint. */
  datatype Doctor = Doctor(
    id: string,
    name: string,
    nameInitials: string,
    photo: string,
    introduction: string,
    specialities: seq<Specialty>,
    fees: string,
    experience: string,
    languages: seq<string>,
    clinic: Clinic,
    videoConsult: bool,
    inClinic: bool)

  /**
   * The view state. Every field is optional; a partial update is a value of
   * the same type whose None fields are the ones left out of the update.
   */
  datatype SearchParams = SearchParams(
    search: Option<string>,
    consultationType: Option<string>,
    specialty: Option<seq<string>>,
    sortBy: Option<string>)

  /** The update that mentions no field at all. */
  const NoChange := SearchParams(None, None, None, None)

  /** A key/value list standing for the page's query string. */
  type Query = seq<(string, string)>

  /** `s || ''` for an optional string field. */
  function TextOf(o: Option<string>): (r: string)
    ensures r == "" <==> !IsSet(o)
    ensures IsSet(o) ==> r == o.value
  {
    match o
    case Some(s) => s
    case None => ""
  }

  /** `list || []` for the optional specialty field. */
  function NamesOf(o: Option<seq<string>>): (r: seq<string>)
    ensures r == [] <==> o.None? || o.value == []
  {
    match o
    case Some(l) => l
    case None => []
  }

  /** JavaScript truthiness of an optional string: defined and non-empty. */
  predicate IsSet(o: Option<string>)
  {
    o.Some? && o.value != ""
  }

  /** Every field is defined, as after decoding the address. */
  predicate IsComplete(p: SearchParams)
  {
    p.search.Some? && p.consultationType.Some? && p.specialty.Some? && p.sortBy.Some?
  }
}
