/**
 * Value types shared by the client: the records the remote service returns
 * (dogs, locations), the signed-in user, the sort options, and the two
 * failure-compatible wrappers used wherever the source has an optional value
 * or a call that can fail.
 */
module Api {

  datatype Option<+T> = None | Some(value: T)

  /** Outcome of a remote call: the payload, or the error the call rejected with. */
  datatype Result<+T> = Ok(value: T) | Err(message: string)

  /** An adoptable dog as returned by the record fetch; `id` identifies it. */
  datatype Dog = Dog(id: string, img: string, name: string, age: int, zipCode: string, breed: string)

  /** A location record; latitude and longitude are never used by the client logic. */
  datatype Location = Location(zipCode: string, city: string, state: string, county: string)

  /** The identity kept by the session: display name and email. */
  datatype User = User(name: string, email: string)

  /** What the login form sends to the login endpoint. */
  datatype LoginCredentials = LoginCredentials(name: string, email: string)

  datatype SortField = Breed | Name | Age

  datatype SortDirection = Asc | Desc

  /** The wire spelling of a sort field: 'breed', 'name' or 'age'. */
  function SortFieldName(f: SortField): (r: string)
    ensures |r| >= 3 && ':' !in r
  {
    match f
    case Breed => "breed"
    case Name => "name"
    case Age => "age"
  }

  /** The wire spelling of a sort direction: 'asc' or 'desc'. */
  function SortDirectionName(d: SortDirection): (r: string)
    ensures |r| >= 3 && ':' !in r
  {
    match d
    case Asc => "asc"
    case Desc => "desc"
  }
}
