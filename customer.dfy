/**
 * The customer record as stored (the `Customer` entity) and as received from
 * the remote service (`CustomerDTO`). Both carry the same nine string fields,
 * any of which may be null; `uuid` is the store's key.
 */
module CustomerModel {
  import opened Wrappers

  datatype Customer = Customer(
    uuid: Option<string>,
    firstName: Option<string>,
    lastName: Option<string>,
    street: Option<string>,
    address: Option<string>,
    city: Option<string>,
    state: Option<string>,
    email: Option<string>,
    phone: Option<string>)

  datatype CustomerDTO = CustomerDTO(
    uuid: Option<string>,
    firstName: Option<string>,
    lastName: Option<string>,
    street: Option<string>,
    address: Option<string>,
    city: Option<string>,
    state: Option<string>,
    email: Option<string>,
    phone: Option<string>)

  /** The all-arguments `Customer` constructor applied to the getters of a remote record. */
  function ToCustomer(d: CustomerDTO): Customer {
    Customer(d.uuid, d.firstName, d.lastName, d.street, d.address, d.city, d.state, d.email, d.phone)
  }

  /** The inverse copy, field by field. */
  function ToDTO(c: Customer): CustomerDTO {
    CustomerDTO(c.uuid, c.firstName, c.lastName, c.street, c.address, c.city, c.state, c.email, c.phone)
  }

  /** The copy loses nothing: it is a bijection between remote records and entities. */
  lemma CopyRoundTrip(d: CustomerDTO, c: Customer)
    ensures ToDTO(ToCustomer(d)) == d
    ensures ToCustomer(ToDTO(c)) == c
    ensures ToCustomer(d) == c <==> d == ToDTO(c)
  {
  }

  /** The fields the finders compare against. */
  datatype Field = FirstName | City | Email | Phone

  function FieldOf(c: Customer, f: Field): Option<string> {
    match f
    case FirstName => c.firstName
    case City => c.city
    case Email => c.email
    case Phone => c.phone
  }
}
