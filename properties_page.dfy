/** The "my properties" page: deleting a property. */
module PropertiesPage {
  import opened Domain
  import opened Seqs
  import opened Client

  const DeleteFailed := "Failed to delete property"

  /** `properties.filter((p) => p.id !== id)`. */
  function WithoutProperty(properties: seq<Property>, id: PropertyId): (r: seq<Property>)
    ensures forall p :: p in r <==> p in properties && p.id != id
    ensures forall p: Property :: p.id != id ==> multiset(r)[p] == multiset(properties)[p]
    ensures IsSubsequence(r, properties)
  {
    Filter(properties, (p: Property) => p.id != id)
  }

  /** The page state that handleDelete updates. */
  class PropertiesView {
    var properties: seq<Property>
    var error: string

    constructor (properties: seq<Property>)
      ensures this.properties == properties && error == ""
    {
      this.properties := properties;
      error := "";
    }

    /** handleDelete: confirm, call the API, then drop the row or record the error. */
    method HandleDelete(id: PropertyId, confirmed: bool, call: CallResult) returns (requested: bool)
      modifies this
      ensures requested == confirmed
      ensures confirmed && call.Resolved? ==> properties == WithoutProperty(old(properties), id) && error == old(error)
      ensures confirmed && call.Rejected? ==> properties == old(properties) && error == ErrorText(call.serverError, DeleteFailed)
      ensures !confirmed ==> properties == old(properties) && error == old(error)
    {
      if !confirmed {
        return false;
      }
      requested := true;
      match call
      case Resolved =>
        properties := WithoutProperty(properties, id);
      case Rejected(serverError) =>
        error := ErrorText(serverError, DeleteFailed);
    }
  }
}
