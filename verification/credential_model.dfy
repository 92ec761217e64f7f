/**
 * The credential hash registry as a value-level state machine.
 *
 * A registry holds one admin identity, a whitelist of issuers and a map from
 * credential hash to credential record. Five operations change it (adding and
 * removing issuers, storing and revoking credentials, handing over the admin
 * role) and two only read it (validity check and record lookup). Every
 * operation answers with a value or a numeric error code.
 *
 * This module gives each operation as a pure transition on a `State` value,
 * and proves the properties of single steps and of whole traces of steps.
 * The stateful object that owns these fields is in module CredentialStore.
 */
module CredentialModel {

  /** Principals (admin, issuers, subjects) are opaque comparable strings. */
  type Identity = string

  /** Credential hashes are opaque comparable strings. */
  type Hash = string

  datatype Option<T> = None | Some(value: T)

  /** The height stamped on every stored record. */
  const StoreHeight: int := 9999

  /** The height a validity check uses when the caller gives none. */
  const DefaultHeight: int := 9999

  /** The registry's failures, each with the numeric code callers see. */
  datatype Error =
    | NotAuthorized   // caller is not the admin, or not the record's issuer
    | DuplicateHash   // a record for this hash already exists
    | NotFound        // no record for this hash
    | Revoked         // the record has been revoked
    | Expired         // the record's expiry height has passed
    | NotWhitelisted  // the caller of a store is not a whitelisted issuer
  {
    function Code(): (c: nat)
      ensures 100 <= c <= 105
      ensures c == 100 <==> this == NotAuthorized
      ensures c == 105 <==> this == NotWhitelisted
    {
      match this
      case NotAuthorized => 100
      case DuplicateHash => 101
      case NotFound => 102
      case Revoked => 103
      case Expired => 104
      case NotWhitelisted => 105
    }
  }

  /** `{value}` or `{error: code}`. */
  datatype Result<T> = Ok(value: T) | Err(error: Error)

  /** What is kept for one credential hash. */
  datatype Record = Record(
    issuer: Identity,
    subject: Identity,
    timestamp: int,
    expiresAt: Option<int>,
    revoked: bool)

  /**
   * The expiry test of a validity check: an expiry height is present, is not
   * zero (zero is falsy and so means "no expiry") and lies below `height`.
   */
  predicate PastExpiry(rec: Record, height: int)
  {
    match rec.expiresAt
    case None => false
    case Some(e) => e != 0 && height > e
  }

  /**
   * The positive reading of validity: not revoked, and either no expiry
   * height (absent or zero) or the height has not passed it.
   */
  predicate Live(rec: Record, height: int)
  {
    !rec.revoked && (rec.expiresAt == None || rec.expiresAt == Some(0) || height <= rec.expiresAt.value)
  }

  /** The whole registry. */
  datatype State = State(admin: Identity, whitelist: set<Identity>, credentials: map<Hash, Record>)
  {
    predicate IsAdmin(caller: Identity)
    {
      caller == admin
    }

    /**
     * Validity check of `hash` at `currentHeight`: missing, then revoked,
     * then expired, in that order; otherwise true.
     */
    function IsValid(hash: Hash, currentHeight: int := DefaultHeight): (r: Result<bool>)
      ensures r.Ok? <==> hash in credentials && Live(credentials[hash], currentHeight)
      ensures r.Ok? ==> r.value
      ensures hash !in credentials ==> r == Err(NotFound)
      ensures hash in credentials && credentials[hash].revoked ==> r == Err(Revoked)
      ensures r == Err(Expired) <==>
        hash in credentials && !credentials[hash].revoked && !Live(credentials[hash], currentHeight)
    {
      if hash !in credentials then Err(NotFound)
      else
        var data := credentials[hash];
        if data.revoked then Err(Revoked)
        else if PastExpiry(data, currentHeight) then Err(Expired)
        else Ok(true)
    }

    /** Look up the record stored for `hash`. */
    function GetCredential(hash: Hash): (r: Result<Record>)
      ensures r.Ok? <==> hash in credentials
      ensures r.Ok? ==> r.value == credentials[hash]
      ensures r.Err? ==> r.error == NotFound
    {
      if hash in credentials then Ok(credentials[hash]) else Err(NotFound)
    }
  }

  /** The registry right after construction: the given admin, nothing else. */
  function Initial(admin: Identity): State
  {
    State(admin, {}, map[])
  }

  /** The operations that change state, with their arguments. */
  datatype Op =
    | AddIssuer(caller: Identity, issuer: Identity)
    | RemoveIssuer(caller: Identity, issuer: Identity)
    | StoreCredential(caller: Identity, hash: Hash, subject: Identity, expiresAt: Option<int>)
    | RevokeCredential(caller: Identity, hash: Hash)
    | TransferAdmin(caller: Identity, newAdmin: Identity)

  /** The state after an operation and the answer it gave. */
  datatype Transition = Transition(next: State, result: Result<bool>)

  /**
   * A record evolves from `a` to `b` when only its revoked flag may change,
   * and only from false to true.
   */
  predicate Evolves(a: Record, b: Record)
  {
    && a.issuer == b.issuer
    && a.subject == b.subject
    && a.timestamp == b.timestamp
    && a.expiresAt == b.expiresAt
    && (a.revoked ==> b.revoked)
  }

  /** Every record of `s` is still in `s'`, evolved. */
  predicate Extends(s: State, s': State)
  {
    forall h :: h in s.credentials ==> h in s'.credentials && Evolves(s.credentials[h], s'.credentials[h])
  }

  /** The errors each operation may answer with. */
  function Errors(op: Op): set<Error>
  {
    match op
    case AddIssuer(_, _) => {NotAuthorized}
    case RemoveIssuer(_, _) => {NotAuthorized}
    case StoreCredential(_, _, _, _) => {NotWhitelisted, DuplicateHash}
    case RevokeCredential(_, _) => {NotFound, NotAuthorized}
    case TransferAdmin(_, _) => {NotAuthorized}
  }

  /** One state-changing operation applied to `s`. */
  function Step(s: State, op: Op): (t: Transition)
    ensures t.result.Err? ==> t.next == s && t.result.error in Errors(op)
    ensures t.result.Ok? ==> t.result.value
    ensures Extends(s, t.next)
    ensures !op.StoreCredential? ==> t.next.credentials.Keys == s.credentials.Keys
    ensures !op.TransferAdmin? ==> t.next.admin == s.admin
  {
    match op
    case AddIssuer(caller, issuer) =>
      if !s.IsAdmin(caller) then Transition(s, Err(NotAuthorized))
      else Transition(s.(whitelist := s.whitelist + {issuer}), Ok(true))
    case RemoveIssuer(caller, issuer) =>
      if !s.IsAdmin(caller) then Transition(s, Err(NotAuthorized))
      else Transition(s.(whitelist := s.whitelist - {issuer}), Ok(true))
    case StoreCredential(caller, hash, subject, expiresAt) =>
      if caller !in s.whitelist then Transition(s, Err(NotWhitelisted))
      else if hash in s.credentials then Transition(s, Err(DuplicateHash))
      else
        var rec := Record(caller, subject, StoreHeight, expiresAt, false);
        Transition(s.(credentials := s.credentials[hash := rec]), Ok(true))
    case RevokeCredential(caller, hash) =>
      if hash !in s.credentials then Transition(s, Err(NotFound))
      else
        var data := s.credentials[hash];
        if caller != data.issuer then Transition(s, Err(NotAuthorized))
        else Transition(s.(credentials := s.credentials[hash := data.(revoked := true)]), Ok(true))
    case TransferAdmin(caller, newAdmin) =>
      if !s.IsAdmin(caller) then Transition(s, Err(NotAuthorized))
      else Transition(s.(admin := newAdmin), Ok(true))
  }

  /** A trace of operations applied in order. */
  function Run(s: State, ops: seq<Op>): State
    decreases |ops|
  {
    if ops == [] then s else Run(Step(s, ops[0]).next, ops[1..])
  }

  /** The answer to the `k`-th operation of a trace. */
  function ResultAt(s: State, ops: seq<Op>, k: nat): Result<bool>
    requires k < |ops|
  {
    Step(Run(s, ops[..k]), ops[k]).result
  }

  // ---------------------------------------------------------------------
  // Single operations

  /** Issuer management and admin transfer are admin-only; a refusal changes nothing. */
  lemma NonAdminRejected(s: State, op: Op)
    requires op.AddIssuer? || op.RemoveIssuer? || op.TransferAdmin?
    requires op.caller != s.admin
    ensures Step(s, op) == Transition(s, Err(NotAuthorized))
  {
  }

  /** The admin always succeeds at issuer management, touching only the whitelist. */
  lemma AdminManagesWhitelist(s: State, issuer: Identity)
    ensures Step(s, AddIssuer(s.admin, issuer)) == Transition(s.(whitelist := s.whitelist + {issuer}), Ok(true))
    ensures Step(s, RemoveIssuer(s.admin, issuer)) == Transition(s.(whitelist := s.whitelist - {issuer}), Ok(true))
  {
  }

  /** Adding an issuer twice is the same as adding it once, and it ends up whitelisted. */
  lemma AddIssuerIdempotent(s: State, caller: Identity, issuer: Identity)
    ensures var t := Step(s, AddIssuer(caller, issuer));
      Step(t.next, AddIssuer(caller, issuer)) == t
      && (caller == s.admin ==> issuer in t.next.whitelist)
  {
  }

  /**
   * A store checks the whitelist first (105 whether or not the hash exists),
   * then duplicates (101); either refusal changes nothing.
   */
  lemma StoreErrorOrder(s: State, caller: Identity, hash: Hash, subject: Identity, expiresAt: Option<int>)
    ensures caller !in s.whitelist ==>
      Step(s, StoreCredential(caller, hash, subject, expiresAt)) == Transition(s, Err(NotWhitelisted))
    ensures caller in s.whitelist && hash in s.credentials ==>
      Step(s, StoreCredential(caller, hash, subject, expiresAt)) == Transition(s, Err(DuplicateHash))
  {
  }

  /**
   * A successful store adds exactly one record, stamped with the caller as
   * issuer, the store height and revoked false; nothing else changes.
   */
  lemma StoreAddsOneRecord(s: State, caller: Identity, hash: Hash, subject: Identity, expiresAt: Option<int>)
    requires Step(s, StoreCredential(caller, hash, subject, expiresAt)).result.Ok?
    ensures caller in s.whitelist && hash !in s.credentials
    ensures var s' := Step(s, StoreCredential(caller, hash, subject, expiresAt)).next;
      && s'.admin == s.admin && s'.whitelist == s.whitelist
      && s'.credentials.Keys == s.credentials.Keys + {hash}
      && |s'.credentials| == |s.credentials| + 1
      && s'.credentials[hash] == Record(caller, subject, StoreHeight, expiresAt, false)
      && (forall h :: h in s.credentials ==> s'.credentials[h] == s.credentials[h])
  {
  }

  /**
   * Revocation checks existence before authorization (102 for an unknown
   * hash, even for the admin), then that the caller is the record's issuer.
   */
  lemma RevokeErrorOrder(s: State, caller: Identity, hash: Hash)
    ensures hash !in s.credentials ==>
      Step(s, RevokeCredential(caller, hash)) == Transition(s, Err(NotFound))
    ensures hash in s.credentials && caller != s.credentials[hash].issuer ==>
      Step(s, RevokeCredential(caller, hash)) == Transition(s, Err(NotAuthorized))
  {
  }

  /** A successful revocation sets that one record's flag and changes nothing else. */
  lemma RevokeMarksOnlyThatRecord(s: State, caller: Identity, hash: Hash)
    requires Step(s, RevokeCredential(caller, hash)).result.Ok?
    ensures hash in s.credentials && caller == s.credentials[hash].issuer
    ensures var s' := Step(s, RevokeCredential(caller, hash)).next;
      && s'.admin == s.admin && s'.whitelist == s.whitelist
      && s'.credentials == s.credentials[hash := s.credentials[hash].(revoked := true)]
      && s'.IsValid(hash) == Err(Revoked)
  {
  }

  /** Revoking twice is the same as revoking once. */
  lemma RevokeIdempotent(s: State, caller: Identity, hash: Hash)
    ensures var t := Step(s, RevokeCredential(caller, hash));
      Step(t.next, RevokeCredential(caller, hash)) == t
  {
  }

  /** A successful transfer installs the new admin; the old one loses its rights. */
  lemma TransferAdminHandsOver(s: State, newAdmin: Identity, issuer: Identity)
    ensures var s' := Step(s, TransferAdmin(s.admin, newAdmin)).next;
      && s' == s.(admin := newAdmin)
      && (s.admin != newAdmin ==> Step(s', AddIssuer(s.admin, issuer)).result == Err(NotAuthorized))
      && Step(s', AddIssuer(newAdmin, issuer)).result == Ok(true)
  {
  }

  /** A validity check reads neither the admin nor the whitelist. */
  lemma ValidityIgnoresRoles(s: State, admin: Identity, whitelist: set<Identity>, hash: Hash, height: int)
    ensures s.(admin := admin, whitelist := whitelist).IsValid(hash, height) == s.IsValid(hash, height)
  {
  }

  /** Removing an issuer leaves the validity of every credential as it was. */
  lemma RemoveIssuerKeepsValidity(s: State, caller: Identity, issuer: Identity, hash: Hash, height: int)
    ensures Step(s, RemoveIssuer(caller, issuer)).next.IsValid(hash, height) == s.IsValid(hash, height)
  {
  }

  // ---------------------------------------------------------------------
  // Traces

  lemma ExtendsTransitive(a: State, b: State, c: State)
    requires Extends(a, b) && Extends(b, c)
    ensures Extends(a, c)
  {
  }

  /** No trace removes a record, alters its immutable fields, or un-revokes it. */
  lemma {:induction false} RunExtends(s: State, ops: seq<Op>)
    ensures Extends(s, Run(s, ops))
    decreases |ops|
  {
    if ops != [] {
      var s1 := Step(s, ops[0]).next;
      RunExtends(s1, ops[1..]);
      ExtendsTransitive(s, s1, Run(s1, ops[1..]));
    }
  }

  /** Running `a` then `b` is running `a + b`. */
  lemma {:induction false} RunAppend(s: State, a: seq<Op>, b: seq<Op>)
    ensures Run(s, a + b) == Run(Run(s, a), b)
    decreases |a|
  {
    if a == [] {
      assert a + b == b;
    } else {
      assert (a + b)[0] == a[0];
      assert (a + b)[1..] == a[1..] + b;
      RunAppend(Step(s, a[0]).next, a[1..], b);
    }
  }

  /** The state after the first `k + 1` operations is one step past the first `k`. */
  lemma RunPrefixStep(s: State, ops: seq<Op>, k: nat)
    requires k < |ops|
    ensures Run(s, ops[..k + 1]) == Step(Run(s, ops[..k]), ops[k]).next
  {
    assert ops[..k + 1] == ops[..k] + [ops[k]];
    RunAppend(s, ops[..k], [ops[k]]);
    assert [ops[k]][1..] == [];
  }

  /** Once revoked, a credential fails validation with 103 after any trace, at any height. */
  lemma RevokedStaysRevoked(s: State, ops: seq<Op>, hash: Hash, height: int)
    requires hash in s.credentials && s.credentials[hash].revoked
    ensures Run(s, ops).IsValid(hash, height) == Err(Revoked)
  {
    RunExtends(s, ops);
  }

  /** A stored hash can never be stored again, whatever happened in between. */
  lemma StoredHashRefused(s: State, ops: seq<Op>, caller: Identity, hash: Hash, subject: Identity, expiresAt: Option<int>)
    requires hash in s.credentials
    ensures var r := Step(Run(s, ops), StoreCredential(caller, hash, subject, expiresAt)).result;
      r == Err(NotWhitelisted) || r == Err(DuplicateHash)
  {
    RunExtends(s, ops);
  }

  /** In any trace, at most one store of a given hash succeeds. */
  lemma AtMostOneStore(s: State, ops: seq<Op>, i: nat, j: nat)
    requires i < j < |ops|
    requires ops[i].StoreCredential? && ops[j].StoreCredential? && ops[i].hash == ops[j].hash
    requires ResultAt(s, ops, i).Ok?
    ensures ResultAt(s, ops, j).Err?
  {
    var mid := Run(s, ops[..i + 1]);
    RunPrefixStep(s, ops, i);
    assert ops[i].hash in mid.credentials;
    assert ops[..j] == ops[..i + 1] + ops[i + 1..j];
    RunAppend(s, ops[..i + 1], ops[i + 1..j]);
    StoredHashRefused(mid, ops[i + 1..j], ops[j].caller, ops[j].hash, ops[j].subject, ops[j].expiresAt);
  }

  /**
   * A record that appears during a trace was created by a successful store at
   * some step `k` whose caller was whitelisted at that moment.
   */
  lemma {:induction false} CreatingStore(s: State, ops: seq<Op>, hash: Hash) returns (k: nat)
    requires hash !in s.credentials && hash in Run(s, ops).credentials
    ensures k < |ops|
    ensures ops[k].StoreCredential? && ops[k].hash == hash
    ensures ResultAt(s, ops, k).Ok?
    ensures ops[k].caller in Run(s, ops[..k]).whitelist
    decreases |ops|
  {
    assert ops != [];
    var s1 := Step(s, ops[0]).next;
    assert ops[..0] == [];
    if hash in s1.credentials {
      k := 0;
    } else {
      var k' := CreatingStore(s1, ops[1..], hash);
      k := k' + 1;
      assert ops[..k][0] == ops[0];
      assert ops[..k][1..] == ops[1..][..k'];
    }
  }

  /**
   * The issuer of every record created during a trace was whitelisted when it
   * stored it, and the record still carries that store's arguments, even if
   * the issuer has since been removed from the whitelist.
   */
  lemma IssuerWasWhitelisted(s: State, ops: seq<Op>, hash: Hash) returns (k: nat)
    requires hash !in s.credentials && hash in Run(s, ops).credentials
    ensures k < |ops| && ops[k].StoreCredential? && ops[k].hash == hash
    ensures ops[k].caller in Run(s, ops[..k]).whitelist
    ensures var rec := Run(s, ops).credentials[hash];
      && rec.issuer == ops[k].caller
      && rec.subject == ops[k].subject
      && rec.timestamp == StoreHeight
      && rec.expiresAt == ops[k].expiresAt
  {
    k := CreatingStore(s, ops, hash);
    var mid := Run(s, ops[..k + 1]);
    RunPrefixStep(s, ops, k);
    assert ops == ops[..k + 1] + ops[k + 1..];
    RunAppend(s, ops[..k + 1], ops[k + 1..]);
    RunExtends(mid, ops[k + 1..]);
  }
}
