/** The user entity and its transfer object. */
module Users {

  import opened Wrappers

  /** A calendar date, counted in days from an arbitrary epoch; later dates are larger. */
  type Date = int

  /**
   * A persisted user. The id is absent until the store assigns one on first save;
   * no method of the entity changes it afterwards.
   */
  class User {
    var id: Option<int>
    var firstName: string
    var lastName: string
    var birthdate: Date
    var email: string

    /** Stores the four data fields and leaves the id unset. */
    constructor (firstName: string, lastName: string, birthdate: Date, email: string)
      ensures id == None
      ensures this.firstName == firstName && this.lastName == lastName
      ensures this.birthdate == birthdate && this.email == email
    {
      id := None;
      this.firstName := firstName;
      this.lastName := lastName;
      this.birthdate := birthdate;
      this.email := email;
    }

    method SetFirstName(firstName: string)
      modifies this
      ensures this.firstName == firstName
      ensures id == old(id) && lastName == old(lastName)
      ensures birthdate == old(birthdate) && email == old(email)
    {
      this.firstName := firstName;
    }

    method SetLastName(lastName: string)
      modifies this
      ensures this.lastName == lastName
      ensures id == old(id) && firstName == old(firstName)
      ensures birthdate == old(birthdate) && email == old(email)
    {
      this.lastName := lastName;
    }

    method SetEmail(email: string)
      modifies this
      ensures this.email == email
      ensures id == old(id) && firstName == old(firstName)
      ensures lastName == old(lastName) && birthdate == old(birthdate)
    {
      this.email := email;
    }

    method SetBirthdate(birthdate: Date)
      modifies this
      ensures this.birthdate == birthdate
      ensures id == old(id) && firstName == old(firstName)
      ensures lastName == old(lastName) && email == old(email)
    {
      this.birthdate := birthdate;
    }
  }

  /** The value form of a user handed to and received from callers. */
  datatype UserDto = UserDto(id: Option<int>, firstName: string, lastName: string, birthdate: Date, email: string)
}
