/**
 * The registry's scenario checks, each on a fresh registry whose admin is
 * `Admin`, stated as assertions the verifier proves from the method
 * contracts of CredentialStore.Registry and the definitions of its lookups.
 */
module StoreScenarios {
  import opened CredentialModel
  import opened CredentialStore

  const Admin: Identity := "admin"
  const Issuer: Identity := "issuer"
  const User: Identity := "user"
  const Abc: Hash := "abc123"

  method AdminWhitelistsIssuer()
  {
    var reg := new Registry(Admin);
    var r := reg.AddIssuer(Admin, Issuer);
    assert r == Ok(true);
    assert Issuer in reg.whitelist;
  }

  method NonAdminCannotWhitelist()
  {
    var reg := new Registry(Admin);
    var r := reg.AddIssuer(User, Issuer);
    assert r == Err(NotAuthorized) && r.error.Code() == 100;
    assert reg.whitelist == {};
  }

  method WhitelistedIssuerStores()
  {
    var reg := new Registry(Admin);
    var _ := reg.AddIssuer(Admin, Issuer);
    var r := reg.StoreCredential(Issuer, Abc, User, Some(10000));
    assert r == Ok(true);
    assert reg.GetCredential(Abc) == Ok(Record(Issuer, User, 9999, Some(10000), false));
  }

  method DuplicateRefused()
  {
    var reg := new Registry(Admin);
    var _ := reg.AddIssuer(Admin, Issuer);
    var _ := reg.StoreCredential(Issuer, Abc, User, None);
    var r := reg.StoreCredential(Issuer, Abc, User, None);
    assert r == Err(DuplicateHash) && r.error.Code() == 101;
  }

  method IssuerRevokes()
  {
    var reg := new Registry(Admin);
    var _ := reg.AddIssuer(Admin, Issuer);
    var _ := reg.StoreCredential(Issuer, Abc, User, None);
    var r := reg.RevokeCredential(Issuer, Abc);
    assert r == Ok(true);
  }

  method ValidBeforeExpiry()
  {
    var reg := new Registry(Admin);
    var _ := reg.AddIssuer(Admin, Issuer);
    var _ := reg.StoreCredential(Issuer, Abc, User, Some(11000));
    assert reg.IsValid(Abc, 10000) == Ok(true);
  }

  method RevokedFailsValidation()
  {
    var reg := new Registry(Admin);
    var _ := reg.AddIssuer(Admin, Issuer);
    var _ := reg.StoreCredential(Issuer, Abc, User, None);
    var _ := reg.RevokeCredential(Issuer, Abc);
    var r := reg.IsValid(Abc);
    assert r == Err(Revoked) && r.error.Code() == 103;
  }

  method ExpiredFailsValidation()
  {
    var reg := new Registry(Admin);
    var _ := reg.AddIssuer(Admin, Issuer);
    var _ := reg.StoreCredential(Issuer, Abc, User, Some(1000));
    var r := reg.IsValid(Abc, 1500);
    assert r == Err(Expired) && r.error.Code() == 104;
  }

  method AdminTransferred()
  {
    var reg := new Registry(Admin);
    var r := reg.TransferAdmin(Admin, User);
    assert r == Ok(true);
    assert reg.admin == User;
    var old_ := reg.AddIssuer(Admin, Issuer);
    assert old_ == Err(NotAuthorized);
    var new_ := reg.AddIssuer(User, Issuer);
    assert new_ == Ok(true);
  }

  /** Removing the issuer afterwards leaves its credential valid. */
  method RemovedIssuerCredentialStaysValid()
  {
    var reg := new Registry(Admin);
    var _ := reg.AddIssuer(Admin, Issuer);
    var _ := reg.StoreCredential(Issuer, Abc, User, None);
    var _ := reg.RemoveIssuer(Admin, Issuer);
    assert Issuer !in reg.whitelist;
    assert reg.IsValid(Abc, 123456) == Ok(true);
    var r := reg.StoreCredential(Issuer, "xyz", User, None);
    assert r == Err(NotWhitelisted) && r.error.Code() == 105;
  }

  /** Zero as an expiry height means no expiry. */
  method ZeroExpiryNeverExpires()
  {
    var reg := new Registry(Admin);
    var _ := reg.AddIssuer(Admin, Issuer);
    var _ := reg.StoreCredential(Issuer, Abc, User, Some(0));
    assert reg.IsValid(Abc, 1000000) == Ok(true);
  }
}
