/** The identity provider, seen from the handler: `auth().createUser(...)`. */
module Identity {
  import opened Base

  /** The properties passed to `createUser`; an absent `displayName` is `undefined`. */
  datatype NewAccount = NewAccount(email: string, password: string, displayName: Option<string>, disabled: bool)

  /** What the provider answers to one `createUser` call: the uid it issued,
      or the error it threw (for example a duplicate email). */
  datatype Answer = Issued(uid: string) | Refused(error: BackendError)

  /** The provider's accounts, keyed by uid. `requests` records, for the proof
      only, every `createUser` call made, whether or not it succeeded. */
  class Provider {
    var accounts: map<string, NewAccount>
    ghost var requests: seq<NewAccount>

    constructor (initial: map<string, NewAccount>)
      ensures accounts == initial && requests == []
    {
      accounts := initial;
      requests := [];
    }

    /** `createUser(account)`. The provider's own decision is the parameter
        `answer`; when it issues a uid, the account is recorded under it. */
    method CreateUser(account: NewAccount, answer: Answer) returns (r: Answer)
      modifies this
      ensures r == answer
      ensures answer.Issued? ==> accounts == old(accounts)[answer.uid := account]
      ensures answer.Refused? ==> accounts == old(accounts)
      ensures requests == old(requests) + [account]
    {
      if answer.Issued? {
        accounts := accounts[answer.uid := account];
      }
      requests := requests + [account];
      r := answer;
    }
  }
}
