/**
 * The registry as the object the program mutates: three fields updated in
 * place by five methods, and three read-only lookups. Each method states its
 * answer and the new value of every field, and ties both to the
 * value-level transition `Step`, so every property proved in
 * CredentialModel holds of the object as well.
 */
module CredentialStore {
  import opened CredentialModel

  class Registry {
    var admin: Identity
    var whitelist: set<Identity>
    var credentials: map<Hash, Record>

    /** A fresh registry: the given admin, no issuers, no credentials. */
    constructor (initialAdmin: Identity)
      ensures Snapshot() == Initial(initialAdmin)
    {
      admin := initialAdmin;
      whitelist := {};
      credentials := map[];
    }

    /** The registry's fields as one value. */
    function Snapshot(): State
      reads this
    {
      State(admin, whitelist, credentials)
    }

    predicate IsAdmin(caller: Identity)
      reads this
      ensures IsAdmin(caller) <==> caller == admin
    {
      Snapshot().IsAdmin(caller)
    }

    function IsValid(hash: Hash, currentHeight: int := DefaultHeight): (r: Result<bool>)
      reads this
      ensures r == Ok(true) <==> hash in credentials && Live(credentials[hash], currentHeight)
      ensures hash !in credentials ==> r == Err(NotFound)
      ensures hash in credentials && credentials[hash].revoked ==> r == Err(Revoked)
      ensures r == Err(Expired) <==>
        hash in credentials && !credentials[hash].revoked && !Live(credentials[hash], currentHeight)
      ensures r.Ok? ==> r == Ok(true)
    {
      Snapshot().IsValid(hash, currentHeight)
    }

    function GetCredential(hash: Hash): (r: Result<Record>)
      reads this
      ensures r.Ok? <==> hash in credentials
      ensures r.Ok? ==> r.value == credentials[hash]
      ensures r.Err? ==> r == Err(NotFound)
    {
      Snapshot().GetCredential(hash)
    }

    method AddIssuer(caller: Identity, issuer: Identity) returns (r: Result<bool>)
      modifies this
      ensures Transition(Snapshot(), r) == Step(old(Snapshot()), Op.AddIssuer(caller, issuer))
      ensures r == if caller == old(admin) then Ok(true) else Err(NotAuthorized)
      ensures whitelist == if r.Ok? then old(whitelist) + {issuer} else old(whitelist)
      ensures admin == old(admin) && credentials == old(credentials)
    {
      if !IsAdmin(caller) {
        return Err(NotAuthorized);
      }
      whitelist := whitelist + {issuer};
      return Ok(true);
    }

    method RemoveIssuer(caller: Identity, issuer: Identity) returns (r: Result<bool>)
      modifies this
      ensures Transition(Snapshot(), r) == Step(old(Snapshot()), Op.RemoveIssuer(caller, issuer))
      ensures r == if caller == old(admin) then Ok(true) else Err(NotAuthorized)
      ensures whitelist == if r.Ok? then old(whitelist) - {issuer} else old(whitelist)
      ensures admin == old(admin) && credentials == old(credentials)
    {
      if !IsAdmin(caller) {
        return Err(NotAuthorized);
      }
      whitelist := whitelist - {issuer};
      return Ok(true);
    }

    method StoreCredential(caller: Identity, hash: Hash, subject: Identity, expiresAt: Option<int>)
      returns (r: Result<bool>)
      modifies this
      ensures Transition(Snapshot(), r) == Step(old(Snapshot()), Op.StoreCredential(caller, hash, subject, expiresAt))
      ensures r == if caller !in old(whitelist) then Err(NotWhitelisted)
                   else if hash in old(credentials) then Err(DuplicateHash)
                   else Ok(true)
      ensures credentials == if r.Ok? then old(credentials)[hash := Record(caller, subject, StoreHeight, expiresAt, false)]
                             else old(credentials)
      ensures admin == old(admin) && whitelist == old(whitelist)
    {
      if caller !in whitelist {
        return Err(NotWhitelisted);
      }
      if hash in credentials {
        return Err(DuplicateHash);
      }
      credentials := credentials[hash := Record(caller, subject, StoreHeight, expiresAt, false)];
      return Ok(true);
    }

    method RevokeCredential(caller: Identity, hash: Hash) returns (r: Result<bool>)
      modifies this
      ensures Transition(Snapshot(), r) == Step(old(Snapshot()), Op.RevokeCredential(caller, hash))
      ensures r == if hash !in old(credentials) then Err(NotFound)
                   else if caller != old(credentials)[hash].issuer then Err(NotAuthorized)
                   else Ok(true)
      ensures credentials == if r.Ok? then old(credentials)[hash := old(credentials)[hash].(revoked := true)]
                             else old(credentials)
      ensures admin == old(admin) && whitelist == old(whitelist)
    {
      if hash !in credentials {
        return Err(NotFound);
      }
      var data := credentials[hash];
      if caller != data.issuer {
        return Err(NotAuthorized);
      }
      credentials := credentials[hash := data.(revoked := true)];
      return Ok(true);
    }

    method TransferAdmin(caller: Identity, newAdmin: Identity) returns (r: Result<bool>)
      modifies this
      ensures Transition(Snapshot(), r) == Step(old(Snapshot()), Op.TransferAdmin(caller, newAdmin))
      ensures r == if caller == old(admin) then Ok(true) else Err(NotAuthorized)
      ensures admin == if r.Ok? then newAdmin else old(admin)
      ensures whitelist == old(whitelist) && credentials == old(credentials)
    {
      if !IsAdmin(caller) {
        return Err(NotAuthorized);
      }
      admin := newAdmin;
      return Ok(true);
    }
  }
}
