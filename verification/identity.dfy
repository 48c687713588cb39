/**
 * The persisted identities of src/model/model.ts: a contributor (username,
 * email) and a project (name), each with a database id that starts unset
 * (`null`, here `None`) and can be set once. Setting it a second time raises
 * FinalAccessError and leaves the id as it was.
 */
module Identity {
  import opened Optional

  /** The outcome of `setFinalId`: success, or the FinalAccessError it throws. */
  datatype Outcome = Done | FinalAccessError

  class Contributor {
    var id: Option<int>
    var username: string
    var email: string

    /** The id is optional and defaults to unset. */
    constructor(username: string, email: string, id: Option<int> := None)
      ensures this.username == username && this.email == email && this.id == id
    {
      this.id := id;
      this.username := username;
      this.email := email;
    }

    method GetUsername() returns (username: string)
      ensures username == this.username
    {
      username := this.username;
    }

    method GetEmail() returns (email: string)
      ensures email == this.email
    {
      email := this.email;
    }

    method GetId() returns (id: Option<int>)
      ensures id == this.id
    {
      id := this.id;
    }

    /** Set the id if it is unset; otherwise fail and keep it. */
    method SetFinalId(newId: int) returns (outcome: Outcome)
      modifies this
      ensures old(id).None? ==> outcome == Done && id == Some(newId)
      ensures old(id).Some? ==> outcome == FinalAccessError && id == old(id)
      ensures username == old(username) && email == old(email)
    {
      if id.Some? {
        return FinalAccessError;
      }
      id := Some(newId);
      return Done;
    }
  }

  class Project {
    var id: Option<int>
    var name: string

    /** A new project never has an id. */
    constructor(name: string)
      ensures this.name == name && id == None
    {
      id := None;
      this.name := name;
    }

    method GetName() returns (name: string)
      ensures name == this.name
    {
      name := this.name;
    }

    method GetId() returns (id: Option<int>)
      ensures id == this.id
    {
      id := this.id;
    }

    /** Set the id if it is unset; otherwise fail and keep it. */
    method SetFinalId(newId: int) returns (outcome: Outcome)
      modifies this
      ensures old(id).None? ==> outcome == Done && id == Some(newId)
      ensures old(id).Some? ==> outcome == FinalAccessError && id == old(id)
      ensures name == old(name)
    {
      if id.Some? {
        return FinalAccessError;
      }
      id := Some(newId);
      return Done;
    }
  }

  /**
   * An id is final: on a new project the first `setFinalId` succeeds, the
   * second fails, and the id stays the first one.
   */
  method ProjectIdIsFinal(name: string, first: int, second: int)
    returns (firstOutcome: Outcome, secondOutcome: Outcome, id: Option<int>)
    ensures firstOutcome == Done && secondOutcome == FinalAccessError
    ensures id == Some(first)
  {
    var project := new Project(name);
    firstOutcome := project.SetFinalId(first);
    secondOutcome := project.SetFinalId(second);
    id := project.GetId();
  }

  /** A contributor created with an id cannot be given another. */
  method ContributorIdIsFinal(username: string, email: string, given: int, other: int)
    returns (outcome: Outcome, id: Option<int>)
    ensures outcome == FinalAccessError && id == Some(given)
  {
    var contributor := new Contributor(username, email, Some(given));
    outcome := contributor.SetFinalId(other);
    id := contributor.GetId();
  }
}
