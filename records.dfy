/** The business record the client fetches and the API creates. */
module Records {

  /** One row of the Businesses table; every attribute is a string. */
  datatype Business = Business(busId: string, name: string, createdAt: string, status: string)

  /** `keyof Business`: the column a search or a sort applies to. */
  datatype Field = BusId | Name | CreatedAt | Status

  /** `business[field]` */
  function Key(b: Business, f: Field): string {
    match f
    case BusId => b.busId
    case Name => b.name
    case CreatedAt => b.createdAt
    case Status => b.status
  }
}
