/** The account store behind the `Container` contract, as the in-memory
    `MockContainer` keeps it: one map from client to account snapshot. */
module Storage {

  import opened Wrappers
  import opened Types

  class Container {
    var data: map<ClientID, Account>

    /** `MockContainer::default`: an empty store. */
    constructor ()
      ensures data == map[]
    {
      data := map[];
    }

    /** `get_or_create`: the stored account, or a fresh one for an unseen
        client (nothing is stored until a save). Never fails. */
    method GetOrCreate(id: ClientID) returns (r: Result<Account, ActionError>)
      ensures r.Success?
      ensures id in data ==> r.value == data[id]
      ensures id !in data ==> r.value == NewAccount(id)
    {
      if id in data {
        r := Success(data[id]);
      } else {
        r := Success(NewAccount(id));
      }
    }

    /** `get_account`: the stored account, or `InvalidClientID`. */
    method GetAccount(id: ClientID) returns (r: Result<Account, ActionError>)
      ensures r.Success? <==> id in data
      ensures r.Success? ==> r.value == data[id]
      ensures r.Failure? ==> r.error == InvalidClientID
    {
      if id in data {
        r := Success(data[id]);
      } else {
        r := Failure(InvalidClientID);
      }
    }

    /** `save_account`: overwrites the entry keyed by the account's client. */
    method SaveAccount(acc: Account)
      modifies this
      ensures data == old(data)[acc.client := acc]
    {
      data := data[acc.client := acc];
    }
  }
}
