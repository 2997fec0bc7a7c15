/** Resolution of a parsed SAML authentication response into login information, creation of a
    user from it, the argument checks of metadata loading and the enabled-IdP queries
    (`invenio_edugain/utils.py`). */
module Utils {
  import opened Base
  import opened JsonValues
  import opened Text
  import opened Models

  /** The exceptions the modelled functions raise. */
  datatype PyError =
    | TypeError(msg: string)
    | ValueError(msg: string)
    | KeyError(key: string)
    | IndexError
    | StopIteration
    | AuthnResponseError(failure: AuthnFailure)

  /** Why an authentication response is refused. */
  datatype AuthnFailure =
    | ParseFailed
    | MultipleValues(meth: string)
    | MissingIssuer
    | NoIdentification
    | MultipleUsers
    | FormInvalid

  /** The message each `AuthnResponseError` carries. */
  function Message(failure: AuthnFailure): string {
    match failure
    case ParseFailed => "error when parsing SAML <Response>"
    case MultipleValues(meth) => "SAML <Response> contained multiple " + meth + "s"
    case MissingIssuer => "SAML <Response> didn't include mandatory <Issuer> field"
    case NoIdentification => "SAML <Response> contained no known kinds of identification"
    case MultipleUsers => "SAML <Response> identifies multiple different users"
    case FormInvalid => "form failed to validate when trying to create a user"
  }

  /** The first element of a list, if any. */
  function Head<T>(s: seq<T>): (r: Option<T>)
    ensures r.None? <==> s == []
    ensures r.Some? ==> r.value == s[0]
  {
    if s == [] then None else Some(s[0])
  }

  // ---------------------------------------------------------------------------------------------
  // get_idp_data_dict and MetaDataFlaskSQL.load

  /** What the discovery page is told about one enabled IdP. */
  datatype IdPSummary = IdPSummary(displayname: Option<string>, logoUrl: Option<string>)

  /** `get_idp_data_dict`: the enabled IdPs and nothing else, each with its display name and logo. */
  function GetIdpDataDict(rows: map<string, IdPData>): (r: map<string, IdPSummary>)
    ensures forall id :: id in r <==> id in rows && rows[id].enabled
    ensures forall id | id in r :: r[id].displayname == rows[id].displayname && r[id].logoUrl == rows[id].logoUrl
  {
    map id | id in rows && rows[id].enabled :: IdPSummary(rows[id].displayname, rows[id].logoUrl)
  }

  /** The settings of those rows, among the ids of `ids`, that are enabled. */
  function EnabledSettings(rows: map<string, IdPData>, ids: set<string>): (r: map<string, Json>)
    ensures forall id :: id in r <==> id in ids && id in rows && rows[id].enabled
  {
    map id | id in ids && id in rows && rows[id].enabled :: rows[id].settings
  }

  /** The metadata source pysaml2 reads IdP settings from when it is configured to use the
      database: an in-memory entity table. */
  class MetaDataFlaskSQL {
    var entity: map<string, Json>

    constructor ()
      ensures entity == map[]
    {
      entity := map[];
    }

    /** `load`: copies the settings of every enabled row into the entity table, in whatever order
        the database yields the rows. */
    method Load(db: IdPTable)
      modifies this
      ensures entity == old(entity) + EnabledSettings(db.rows, db.rows.Keys)
    {
      var todo := db.rows.Keys;
      while todo != {}
        invariant todo <= db.rows.Keys
        invariant entity == old(entity) + EnabledSettings(db.rows, db.rows.Keys - todo)
        decreases todo
      {
        var id :| id in todo;
        EnabledStep(old(entity), db.rows, db.rows.Keys - todo, id);
        assert db.rows.Keys - (todo - {id}) == (db.rows.Keys - todo) + {id};
        if db.rows[id].enabled {
          entity := entity[id := db.rows[id].settings];
        }
        todo := todo - {id};
      }
      assert db.rows.Keys - todo == db.rows.Keys;
    }
  }

  /** Loading one more row adds its settings when it is enabled and nothing otherwise. */
  lemma EnabledStep(base: map<string, Json>, rows: map<string, IdPData>, done: set<string>, id: string)
    requires id in rows
    ensures base + EnabledSettings(rows, done + {id}) ==
      if rows[id].enabled then (base + EnabledSettings(rows, done))[id := rows[id].settings]
      else base + EnabledSettings(rows, done)
  {
  }

  // ---------------------------------------------------------------------------------------------
  // load_mdstore

  /** A location argument: a path object, or a string that may be a URL. */
  datatype Location = Path(path: string) | Str(s: string)

  /** A string location that `validators.url` accepts. */
  predicate IsUrl(loc: Location, isUrl: string -> bool) {
    loc.Str? && isUrl(loc.s)
  }

  /** Where the metadata store is loaded from once the arguments have been accepted. */
  datatype MdsSource =
    | Local(location: Location)
      /** Remote metadata checked against a certificate that is a local file. */
    | Remote(url: string, cert: Location)
      /** Remote metadata checked against a certificate downloaded from `certUrl`, whose
          fingerprint matched the one given. */
    | RemoteWithDownloadedCert(url: string, certUrl: string)

  const CertMissingMsg := "must provide a certificate when loading metadata-xml from URL"
  const FingerprintMissingMsg := "must provide a fingerprint when loading certificate from URL"
  const FingerprintMismatchMsg := "downloaded cert's fingerprint didn't match"

  /** `load_mdstore` up to the loading itself. `downloadedCertDigest(url)` is the SHA-256 digest,
      as the certificate library formats it, of the certificate downloaded from `url`. */
  function LoadMdstore(
    metadataXmlLocation: Location,
    certLocation: Option<Location>,
    fingerprintSha256: Option<string>,
    isUrl: string -> bool,
    downloadedCertDigest: string -> string): (r: Result<MdsSource, PyError>)
    ensures !IsUrl(metadataXmlLocation, isUrl) <==> r == Ok(Local(metadataXmlLocation))
    ensures IsUrl(metadataXmlLocation, isUrl) && certLocation.None? ==> r == Err(TypeError(CertMissingMsg))
    ensures IsUrl(metadataXmlLocation, isUrl) && certLocation.Some? && IsUrl(certLocation.value, isUrl) && fingerprintSha256.None?
      ==> r == Err(TypeError(FingerprintMissingMsg))
    ensures r.Ok? && r.value.Remote? ==>
      r.value.url == metadataXmlLocation.s && certLocation == Some(r.value.cert) && !IsUrl(r.value.cert, isUrl)
    ensures IsUrl(metadataXmlLocation, isUrl) && certLocation.Some? && !IsUrl(certLocation.value, isUrl)
      ==> r == Ok(Remote(metadataXmlLocation.s, certLocation.value))
    ensures IsUrl(metadataXmlLocation, isUrl) && certLocation.Some? && IsUrl(certLocation.value, isUrl)
      && fingerprintSha256.Some? && fingerprintSha256.value != downloadedCertDigest(certLocation.value.s)
      ==> r == Err(ValueError(FingerprintMismatchMsg))
    ensures r.Ok? && r.value.RemoteWithDownloadedCert? ==>
      r.value.url == metadataXmlLocation.s && certLocation == Some(Str(r.value.certUrl))
      && IsUrl(Str(r.value.certUrl), isUrl)
      && fingerprintSha256 == Some(downloadedCertDigest(r.value.certUrl))
    ensures r.Err? && r.error.ValueError? ==>
      && r.error.msg == FingerprintMismatchMsg
      && fingerprintSha256.Some? && certLocation.Some? && IsUrl(certLocation.value, isUrl)
      && fingerprintSha256.value != downloadedCertDigest(certLocation.value.s)
  {
    if IsUrl(metadataXmlLocation, isUrl) then
      if certLocation.None? then Err(TypeError(CertMissingMsg))
      else if IsUrl(certLocation.value, isUrl) then
        if fingerprintSha256.None? then Err(TypeError(FingerprintMissingMsg))
        else if fingerprintSha256.value != downloadedCertDigest(certLocation.value.s) then Err(ValueError(FingerprintMismatchMsg))
        else Ok(RemoteWithDownloadedCert(metadataXmlLocation.s, certLocation.value.s))
      else Ok(Remote(metadataXmlLocation.s, certLocation.value))
    else Ok(Local(metadataXmlLocation))
  }

  /** The argument errors are raised before anything is downloaded: their outcome does not depend
      on the downloaded certificate. */
  lemma TypeErrorsPrecedeDownload(
    metadataXmlLocation: Location, certLocation: Option<Location>, fingerprintSha256: Option<string>,
    isUrl: string -> bool, digest1: string -> string, digest2: string -> string)
    requires LoadMdstore(metadataXmlLocation, certLocation, fingerprintSha256, isUrl, digest1).Err?
    requires LoadMdstore(metadataXmlLocation, certLocation, fingerprintSha256, isUrl, digest1).error.TypeError?
    ensures LoadMdstore(metadataXmlLocation, certLocation, fingerprintSha256, isUrl, digest2)
      == LoadMdstore(metadataXmlLocation, certLocation, fingerprintSha256, isUrl, digest1)
  {
  }

  /** Remote metadata is only ever loaded with a certificate, and a downloaded certificate only when
      the fingerprint given is exactly its digest. */
  lemma RemoteMetadataIsChecked(
    metadataXmlLocation: Location, certLocation: Option<Location>, fingerprintSha256: Option<string>,
    isUrl: string -> bool, downloadedCertDigest: string -> string)
    requires IsUrl(metadataXmlLocation, isUrl)
    ensures LoadMdstore(metadataXmlLocation, certLocation, fingerprintSha256, isUrl, downloadedCertDigest).Ok?
      <==> certLocation.Some? &&
           (IsUrl(certLocation.value, isUrl) ==>
              fingerprintSha256 == Some(downloadedCertDigest(certLocation.value.s)))
  {
  }

  /** The fingerprint comparison is on the exact strings: the same digest written in lower case is
      rejected when the certificate library writes it in upper case. */
  lemma FingerprintIsCaseSensitive(isUrl: string -> bool, downloadedCertDigest: string -> string)
    requires isUrl("https://mds.example.org/md.xml") && isUrl("https://mds.example.org/md.pem")
    requires downloadedCertDigest("https://mds.example.org/md.pem") == "AB:CD"
    ensures LoadMdstore(Str("https://mds.example.org/md.xml"), Some(Str("https://mds.example.org/md.pem")),
      Some("ab:cd"), isUrl, downloadedCertDigest) == Err(ValueError(FingerprintMismatchMsg))
  {
  }

  // ---------------------------------------------------------------------------------------------
  // AuthnInfo.from_saml_response

  /** What pysaml2 hands back for a response it could parse: the attribute values by friendly name
      and the `<Issuer>` element's value. */
  datatype AuthnResponse = AuthnResponse(identity: map<string, seq<string>>, issuer: Option<string>)

  /** One entry of `id_by_method`. */
  datatype IdEntry = IdEntry(meth: string, id: Option<string>)

  /** A user of the account database, by primary key. */
  type UserId = nat

  datatype AuthnInfo = AuthnInfo(
    idByMethod: seq<IdEntry>,
    additionalAttributes: map<string, seq<string>>,
    affiliations: seq<string>,
    emails: seq<string>,
    fullName: string,
    next: Option<string>,
    user: Option<UserId>,
    username: string)

  /** The identification methods, most preferred first. */
  const IdMethods: seq<string> := ["pairwise-id", "subject-id", "eduPersonPrincipalName"]

  /** `ava.get(key, [])`. */
  function Get(ava: map<string, seq<string>>, key: string): seq<string> {
    if key in ava then ava[key] else []
  }

  /** `rest` is what remains of `ava` once the keys of `keys` are popped. */
  ghost predicate Popped(ava: map<string, seq<string>>, rest: map<string, seq<string>>, keys: seq<string>) {
    && (forall key :: key in rest <==> key in ava && key !in keys)
    && (forall key | key in rest :: rest[key] == ava[key])
  }

  lemma IdMethodsDistinct()
    ensures forall i, j | 0 <= i < j < |IdMethods| :: IdMethods[i] != IdMethods[j]
  {
    assert IdMethods[0][0] != IdMethods[1][0] && IdMethods[0][0] != IdMethods[2][0] && IdMethods[1][0] != IdMethods[2][0];
  }

  /** The first of `methods` for which the response carries more than one value. */
  function FirstMultiple(ava: map<string, seq<string>>, methods: seq<string>): (m: Option<string>)
    ensures m.None? <==> forall k | 0 <= k < |methods| :: |Get(ava, methods[k])| <= 1
    ensures m.Some? ==> m.value in methods && |Get(ava, m.value)| > 1
    decreases |methods|
  {
    if methods == [] then None
    else if |Get(ava, methods[0])| > 1 then Some(methods[0])
    else
      FirstMultiple(ava, methods[1..])
  }

  /** The method reported is the first, in order of preference, with several values. */
  lemma {:induction false} FirstMultipleAt(ava: map<string, seq<string>>, methods: seq<string>, k: nat)
    requires k < |methods| && |Get(ava, methods[k])| > 1
    requires forall j | 0 <= j < k :: |Get(ava, methods[j])| <= 1
    ensures FirstMultiple(ava, methods) == Some(methods[k])
    decreases k
  {
    if k > 0 {
      FirstMultipleAt(ava, methods[1..], k - 1);
    }
  }

  /** `id_by_method` as the extraction loop leaves it: each method's single value, if any. */
  function RawIds(ava: map<string, seq<string>>, methods: seq<string>): (r: seq<IdEntry>)
    ensures |r| == |methods|
    ensures forall k | 0 <= k < |methods| :: r[k].meth == methods[k]
  {
    seq(|methods|, k requires 0 <= k < |methods| => IdEntry(methods[k], Head(Get(ava, methods[k]))))
  }

  /** `id_by_method` after the issuer rule: a non-empty first identifier (the pairwise-id) is
      prefixed by the issuer and "!". */
  function WithIssuer(ids: seq<IdEntry>, issuer: Option<string>): (r: seq<IdEntry>)
    requires |ids| > 0
    ensures |r| == |ids| && r[1..] == ids[1..] && r[0].meth == ids[0].meth
  {
    if Given(ids[0].id) && Given(issuer) then ids[0 := IdEntry(ids[0].meth, Some(issuer.value + "!" + ids[0].id.value))]
    else ids
  }

  /** The hash of a non-empty identifier; an empty or absent one is dropped. */
  function HashedId(id: Option<string>, sha256: string -> string): Option<string> {
    if Given(id) then Some(sha256(id.value)) else None
  }

  function Hashed(ids: seq<IdEntry>, sha256: string -> string): (r: seq<IdEntry>)
    ensures |r| == |ids|
  {
    seq(|ids|, k requires 0 <= k < |ids| => IdEntry(ids[k].meth, HashedId(ids[k].id, sha256)))
  }

  /** The `id_by_method` that a response resolves to, or the first error it raises before the
      attributes are read: a method with several values, a pairwise-id without an issuer, or no
      identifier left after hashing. */
  function ResolvedIds(ava: map<string, seq<string>>, issuer: Option<string>, sha256: string -> string)
    : (r: Result<seq<IdEntry>, PyError>)
    ensures r.Ok? ==> |r.value| == |IdMethods|
  {
    var multiple := FirstMultiple(ava, IdMethods);
    if multiple.Some? then Err(AuthnResponseError(MultipleValues(multiple.value)))
    else
      var raw := RawIds(ava, IdMethods);
      if Given(raw[0].id) && !Given(issuer) then Err(AuthnResponseError(MissingIssuer))
      else
        var hashed := Hashed(WithIssuer(raw, issuer), sha256);
        if forall e | e in hashed :: e.id.None? then Err(AuthnResponseError(NoIdentification))
        else Ok(hashed)
  }

  /** The users the identifiers of `ids` belong to, in the order of `ids`. */
  function FoundUsers(ids: seq<IdEntry>, getUser: (string, Option<string>) -> Option<UserId>): seq<UserId>
    decreases |ids|
  {
    if ids == [] then []
    else
      var last := ids[|ids| - 1];
      var found := getUser(last.meth, last.id);
      FoundUsers(ids[..|ids| - 1], getUser) + if found.Some? then [found.value] else []
  }

  /** The identifiers belong to more than one user. */
  predicate Conflicting(users: seq<UserId>) {
    exists i | 0 <= i < |users| :: users[i] != users[0]
  }

  lemma {:induction false} FoundUsersPrefix(ids: seq<IdEntry>, getUser: (string, Option<string>) -> Option<UserId>, i: nat)
    requires i <= |ids|
    ensures |FoundUsers(ids[..i], getUser)| <= |FoundUsers(ids, getUser)|
    ensures FoundUsers(ids[..i], getUser) == FoundUsers(ids, getUser)[..|FoundUsers(ids[..i], getUser)|]
    decreases |ids|
  {
    if i < |ids| {
      FoundUsersPrefix(ids[..|ids| - 1], getUser, i);
      assert ids[..|ids| - 1][..i] == ids[..i];
    } else {
      assert ids[..i] == ids;
    }
  }

  /** A conflict among the first users found is a conflict among all of them. */
  lemma ConflictPersists(ids: seq<IdEntry>, getUser: (string, Option<string>) -> Option<UserId>, i: nat)
    requires i <= |ids| && Conflicting(FoundUsers(ids[..i], getUser))
    ensures Conflicting(FoundUsers(ids, getUser))
  {
    FoundUsersPrefix(ids, getUser, i);
    var prefix := FoundUsers(ids[..i], getUser);
    var k :| 0 <= k < |prefix| && prefix[k] != prefix[0];
    assert FoundUsers(ids, getUser)[k] == prefix[k];
  }

  /** The full name: given names and surnames, each space-joined, with one space between, stripped. */
  function FullName(givenNames: seq<string>, familyNames: seq<string>): string {
    Strip(Join(" ", givenNames) + " " + Join(" ", familyNames))
  }

  /** The extraction loop of `from_saml_response`: pops the identification methods from the
      attributes in order of preference, rejecting a method with several values. */
  method ExtractIds(ava: map<string, seq<string>>, methods: seq<string>)
    returns (r: Result<seq<IdEntry>, PyError>, rest: map<string, seq<string>>)
    requires forall i, j | 0 <= i < j < |methods| :: methods[i] != methods[j]
    ensures FirstMultiple(ava, methods).Some? ==>
      r == Err(AuthnResponseError(MultipleValues(FirstMultiple(ava, methods).value)))
    ensures FirstMultiple(ava, methods).None? ==> r == Ok(RawIds(ava, methods)) && Popped(ava, rest, methods)
  {
    rest := ava;
    var idByMethod: seq<IdEntry> := [];
    for k := 0 to |methods|
      invariant Popped(ava, rest, methods[..k])
      invariant idByMethod == RawIds(ava, methods)[..k]
      invariant forall j | 0 <= j < k :: |Get(ava, methods[j])| <= 1
    {
      var meth := methods[k];
      PopStep(ava, rest, methods, k);
      var values := Get(rest, meth);
      rest := rest - {meth};
      if |values| > 1 {
        FirstMultipleAt(ava, methods, k);
        return Err(AuthnResponseError(MultipleValues(meth))), rest;
      }
      idByMethod := idByMethod + [IdEntry(meth, Head(values))];
    }
    assert methods[..|methods|] == methods;
    assert RawIds(ava, methods)[..|methods|] == RawIds(ava, methods);
    return Ok(idByMethod), rest;
  }

  /** One step of the extraction loop: the method popped next is still there with its value, and
      its entry is the next one of `RawIds`. */
  lemma PopStep(ava: map<string, seq<string>>, rest: map<string, seq<string>>, methods: seq<string>, k: nat)
    requires k < |methods| && forall i, j | 0 <= i < j < |methods| :: methods[i] != methods[j]
    requires Popped(ava, rest, methods[..k])
    ensures Get(rest, methods[k]) == Get(ava, methods[k])
    ensures Popped(ava, rest - {methods[k]}, methods[..k + 1])
    ensures RawIds(ava, methods)[..k + 1] == RawIds(ava, methods)[..k] + [IdEntry(methods[k], Head(Get(ava, methods[k])))]
  {
    assert methods[..k + 1] == methods[..k] + [methods[k]];
    assert methods[k] !in methods[..k];
  }

  /** The hashing loop of `from_saml_response`: every non-empty identifier is replaced by its hash,
      every other one by `None`. */
  method HashIds(ids: seq<IdEntry>, sha256: string -> string) returns (hashed: seq<IdEntry>)
    ensures |hashed| == |ids|
    ensures forall k | 0 <= k < |ids| :: hashed[k] == IdEntry(ids[k].meth, HashedId(ids[k].id, sha256))
    ensures hashed == Hashed(ids, sha256)
  {
    hashed := ids;
    for k := 0 to |hashed|
      invariant |hashed| == |ids|
      invariant forall j | 0 <= j < k :: hashed[j] == IdEntry(ids[j].meth, HashedId(ids[j].id, sha256))
      invariant forall j | k <= j < |ids| :: hashed[j] == ids[j]
    {
      var entry := hashed[k];
      hashed := hashed[k := IdEntry(entry.meth, if Given(entry.id) then Some(sha256(entry.id.value)) else None)];
    }
  }

  /** The user-matching loop of `from_saml_response`: the first user found, unless two methods
      lead to different users. */
  method MatchUser(ids: seq<IdEntry>, getUser: (string, Option<string>) -> Option<UserId>)
    returns (r: Result<Option<UserId>, PyError>)
    ensures r.Err? <==> Conflicting(FoundUsers(ids, getUser))
    ensures r.Err? ==> r.error == AuthnResponseError(MultipleUsers)
    ensures r.Ok? ==> r.value == Head(FoundUsers(ids, getUser))
  {
    var firstFoundUser: Option<UserId> := None;
    for k := 0 to |ids|
      invariant firstFoundUser == Head(FoundUsers(ids[..k], getUser))
      invariant !Conflicting(FoundUsers(ids[..k], getUser))
    {
      assert ids[..k + 1][..k] == ids[..k];
      var foundUser := getUser(ids[k].meth, ids[k].id);
      if foundUser.Some? {
        if firstFoundUser.None? {
          firstFoundUser := foundUser;
        } else if firstFoundUser != foundUser {
          var found := FoundUsers(ids[..k + 1], getUser);
          assert found == FoundUsers(ids[..k], getUser) + [foundUser.value];
          assert found[|found| - 1] != found[0];
          ConflictPersists(ids, getUser, k + 1);
          return Err(AuthnResponseError(MultipleUsers));
        }
      }
    }
    assert ids[..|ids|] == ids;
    return Ok(firstFoundUser);
  }

  /** The identifier part of `from_saml_response`: extraction, the issuer rule, hashing and the
      check that some identifier is left. `rest` is what remains of the attributes. */
  method ResolveIds(ava: map<string, seq<string>>, issuer: Option<string>, sha256: string -> string)
    returns (r: Result<seq<IdEntry>, PyError>, rest: map<string, seq<string>>)
    ensures r == ResolvedIds(ava, issuer, sha256)
    ensures r.Ok? ==> Popped(ava, rest, IdMethods)
  {
    IdMethodsDistinct();
    var extracted;
    extracted, rest := ExtractIds(ava, IdMethods);
    if extracted.Err? {
      return extracted, rest;
    }
    var idByMethod := extracted.value;
    if Given(idByMethod[0].id) {
      if !Given(issuer) {
        return Err(AuthnResponseError(MissingIssuer)), rest;
      }
      idByMethod := idByMethod[0 := IdEntry(idByMethod[0].meth, Some(issuer.value + "!" + idByMethod[0].id.value))];
    }
    assert idByMethod == WithIssuer(RawIds(ava, IdMethods), issuer);

    idByMethod := HashIds(idByMethod, sha256);
    if forall e | e in idByMethod :: e.id.None? {
      return Err(AuthnResponseError(NoIdentification)), rest;
    }
    return Ok(idByMethod), rest;
  }

  /** The attributes besides the identifiers that `from_saml_response` reads. */
  datatype Attributes = Attributes(
    affiliations: seq<string>,
    displaynames: seq<string>,
    emails: seq<string>,
    givenNames: seq<string>,
    familyNames: seq<string>,
    rest: map<string, seq<string>>)

  const AttributeKeys: seq<string> := ["eduPersonScopedAffiliation", "displayName", "mail", "givenName", "sn"]

  lemma AttributeKeysDistinct()
    ensures forall i, j | 0 <= i < j < |AttributeKeys| :: AttributeKeys[i] != AttributeKeys[j]
    ensures "email" !in AttributeKeys
  {
    assert AttributeKeys[0][0] == 'e' && AttributeKeys[1][0] == 'd' && AttributeKeys[2][0] == 'm';
    assert AttributeKeys[3][0] == 'g' && AttributeKeys[4][0] == 's' && "email"[1] == 'm' && AttributeKeys[0][1] == 'd';
  }

  /** The attribute part of `from_saml_response`: pops the affiliations, display names and mail
      addresses, reads (without popping) `email`, then pops the given names and surnames. */
  method ReadAttributes(ava: map<string, seq<string>>) returns (r: Result<Attributes, PyError>)
    ensures r.Err? <==> "email" !in ava
    ensures r.Err? ==> r.error == KeyError("email")
    ensures r.Ok? ==>
      && r.value.affiliations == Get(ava, "eduPersonScopedAffiliation")
      && r.value.displaynames == Get(ava, "displayName")
      && r.value.emails == Get(ava, "mail") + ava["email"]
      && r.value.givenNames == Get(ava, "givenName")
      && r.value.familyNames == Get(ava, "sn")
      && Popped(ava, r.value.rest, AttributeKeys)
  {
    AttributeKeysDistinct();
    var rest := ava;
    var affiliations := Get(rest, "eduPersonScopedAffiliation");
    rest := rest - {"eduPersonScopedAffiliation"};
    var displaynames := Get(rest, "displayName");
    rest := rest - {"displayName"};
    var emails := Get(rest, "mail");
    rest := rest - {"mail"};
    if "email" !in rest {
      return Err(KeyError("email"));
    }
    emails := emails + rest["email"];
    var givenNames := Get(rest, "givenName");
    rest := rest - {"givenName"};
    var familyNames := Get(rest, "sn");
    rest := rest - {"sn"};
    return Ok(Attributes(affiliations, displaynames, emails, givenNames, familyNames, rest));
  }

  /** Popping `keys1` and then `keys2` pops the keys of both. */
  lemma PoppedTwice(ava: map<string, seq<string>>, mid: map<string, seq<string>>, rest: map<string, seq<string>>,
    keys1: seq<string>, keys2: seq<string>)
    requires Popped(ava, mid, keys1) && Popped(mid, rest, keys2)
    ensures Popped(ava, rest, keys1 + keys2)
  {
  }

  /** `AuthnInfo.from_saml_response` after pysaml2 has parsed the response (`None` when it could
      not). `sha256(s)` is the hex digest of `s`'s encoding, `getUser` the user an identity of
      the account database links to an (method, identifier) pair. */
  method FromSamlResponse(
    response: Option<AuthnResponse>,
    next: Option<string>,
    sha256: string -> string,
    getUser: (string, Option<string>) -> Option<UserId>)
    returns (r: Result<AuthnInfo, PyError>)
    ensures response.None? ==> r == Err(AuthnResponseError(ParseFailed))
    ensures response.Some? ==>
      var ids := ResolvedIds(response.value.identity, response.value.issuer, sha256);
      ids.Err? ==> r == Err(ids.error)
    ensures response.Some? ==>
      var ava, ids := response.value.identity, ResolvedIds(response.value.identity, response.value.issuer, sha256);
      ids.Ok? && "email" !in ava ==> r == Err(KeyError("email"))
    ensures response.Some? ==>
      var ava, ids := response.value.identity, ResolvedIds(response.value.identity, response.value.issuer, sha256);
      ids.Ok? && "email" in ava ==>
        && (r.Err? <==> Conflicting(FoundUsers(ids.value, getUser)))
        && (r.Err? ==> r.error == AuthnResponseError(MultipleUsers))
    ensures r.Ok? ==> response.Some?
    ensures r.Ok? && response.Some? ==>
      var ava, info := response.value.identity, r.value;
      && ResolvedIds(ava, response.value.issuer, sha256) == Ok(info.idByMethod)
      && Popped(ava, info.additionalAttributes, IdMethods + AttributeKeys)
      && info.affiliations == Get(ava, "eduPersonScopedAffiliation")
      && info.emails == Get(ava, "mail") + ava["email"]
      && info.fullName == FullName(Get(ava, "givenName"), Get(ava, "sn"))
      && info.next == next
      && info.user == Head(FoundUsers(info.idByMethod, getUser))
      && info.username == (
           if Get(ava, "displayName") != [] then Get(ava, "displayName")[0]
           else if info.emails != [] then BeforeFirst(info.emails[0], '@')
           else info.fullName)
  {
    if response.None? {
      return Err(AuthnResponseError(ParseFailed));
    }
    var ids, ava := ResolveIds(response.value.identity, response.value.issuer, sha256);
    if ids.Err? {
      return Err(ids.error);
    }
    AttributesKept(response.value.identity, ava);
    var attributes := ReadAttributes(ava);
    if attributes.Err? {
      return Err(attributes.error);
    }
    var a := attributes.value;
    PoppedTwice(response.value.identity, ava, a.rest, IdMethods, AttributeKeys);

    var fullname := Strip(Join(" ", a.givenNames) + " " + Join(" ", a.familyNames));
    var username;
    if a.displaynames != [] {
      username := a.displaynames[0];
    } else if a.emails != [] {
      username := BeforeFirst(a.emails[0], '@');
    } else {
      username := fullname;
    }

    var user := MatchUser(ids.value, getUser);
    if user.Err? {
      return Err(user.error);
    }
    return Ok(AuthnInfo(ids.value, a.rest, a.affiliations, a.emails, fullname, next, user.value, username));
  }

  /** Popping the identification methods leaves the other attributes as they were. */
  lemma AttributesKept(original: map<string, seq<string>>, ava: map<string, seq<string>>)
    requires Popped(original, ava, IdMethods)
    ensures Get(ava, "eduPersonScopedAffiliation") == Get(original, "eduPersonScopedAffiliation")
    ensures Get(ava, "displayName") == Get(original, "displayName")
    ensures Get(ava, "mail") == Get(original, "mail")
    ensures Get(ava, "givenName") == Get(original, "givenName")
    ensures Get(ava, "sn") == Get(original, "sn")
    ensures "email" in ava <==> "email" in original
    ensures "email" in ava ==> ava["email"] == original["email"]
  {
    AttributesAreNotIdMethods();
  }

  lemma AttributesAreNotIdMethods()
    ensures "eduPersonScopedAffiliation" !in IdMethods && "displayName" !in IdMethods && "mail" !in IdMethods
    ensures "givenName" !in IdMethods && "sn" !in IdMethods && "email" !in IdMethods
  {
    assert IdMethods[0][0] == 'p' && IdMethods[1][0] == 's' && IdMethods[2][0] == 'e';
    assert IdMethods[1][1] == 'u' && IdMethods[2][1] == 'd' && IdMethods[2][9] == 'P';
    assert "eduPersonScopedAffiliation"[9] == 'S' && "email"[1] == 'm' && "sn"[1] == 'n';
  }

  /** Each method's resolved entry is the hash of its identifier, the pairwise-id's taken together
      with the issuer; a method without a non-empty identifier has none. */
  lemma ResolvedIdsHashes(ava: map<string, seq<string>>, issuer: Option<string>, sha256: string -> string)
    requires ResolvedIds(ava, issuer, sha256).Ok?
    ensures var ids := ResolvedIds(ava, issuer, sha256).value;
      forall k | 0 <= k < |IdMethods| :: ids[k].meth == IdMethods[k]
        && (Given(Head(Get(ava, IdMethods[k]))) <==> ids[k].id.Some?)
    ensures var raw := Head(Get(ava, "pairwise-id"));
      Given(raw) ==> issuer.Some? && ResolvedIds(ava, issuer, sha256).value[0].id == Some(sha256(issuer.value + "!" + raw.value))
    ensures forall k | 1 <= k < |IdMethods| ::
      var raw := Head(Get(ava, IdMethods[k]));
      ResolvedIds(ava, issuer, sha256).value[k].id == if Given(raw) then Some(sha256(raw.value)) else None
  {
  }

  /** A response is refused for lack of identification exactly when it passed the earlier checks and
      none of the methods carried a non-empty identifier. */
  lemma NoIdentificationIff(ava: map<string, seq<string>>, issuer: Option<string>, sha256: string -> string)
    ensures ResolvedIds(ava, issuer, sha256) == Err(AuthnResponseError(NoIdentification)) <==>
      && FirstMultiple(ava, IdMethods).None?
      && !(Given(Head(Get(ava, "pairwise-id"))) && !Given(issuer))
      && forall k | 0 <= k < |IdMethods| :: !Given(Head(Get(ava, IdMethods[k])))
  {
    var raw := RawIds(ava, IdMethods);
    HashedNoneIff(raw, issuer, sha256);
    assert forall k | 0 <= k < |IdMethods| :: raw[k].id == Head(Get(ava, IdMethods[k]));
  }

  /** After the issuer rule and hashing, no identifier is left exactly when none was non-empty. */
  lemma HashedNoneIff(ids: seq<IdEntry>, issuer: Option<string>, sha256: string -> string)
    requires |ids| > 0
    ensures (forall e | e in Hashed(WithIssuer(ids, issuer), sha256) :: e.id.None?) <==>
      forall k | 0 <= k < |ids| :: !Given(ids[k].id)
  {
    var withIssuer := WithIssuer(ids, issuer);
    var hashed := Hashed(withIssuer, sha256);
    assert forall k | 0 <= k < |ids| :: Given(withIssuer[k].id) <==> Given(ids[k].id);
    assert forall k | 0 <= k < |ids| :: hashed[k].id.Some? <==> Given(withIssuer[k].id);
    if forall e | e in hashed :: e.id.None? {
      forall k | 0 <= k < |ids| ensures !Given(ids[k].id) {
        assert hashed[k] in hashed;
      }
    }
  }

  // ---------------------------------------------------------------------------------------------
  // create_user

  /** The registration form's data. */
  datatype UserForm = UserForm(email: string, affiliations: string, fullName: string, username: string)

  /** A registered user, linked to one external identity. */
  datatype Registration = Registration(form: UserForm, meth: string, externalId: string)

  const UserExistsMsg := "Tried to create a user when they already exist"

  /** The first entry with an identifier. */
  function FirstLinked(ids: seq<IdEntry>): (r: Option<IdEntry>)
    ensures r.None? <==> forall k | 0 <= k < |ids| :: ids[k].id.None?
    ensures r.Some? ==> r.value.id.Some? && exists k | 0 <= k < |ids| ::
      ids[k] == r.value && forall j | 0 <= j < k :: ids[j].id.None?
    decreases |ids|
  {
    if ids == [] then None
    else if ids[0].id.Some? then Some(ids[0])
    else
      FirstLinked(ids[1..])
  }

  /** `create_user` up to the registration: `validates` is the registration form's validation. */
  function CreateUser(info: AuthnInfo, validates: UserForm -> bool): (r: Result<Registration, PyError>)
    ensures info.user.Some? ==> r == Err(ValueError(UserExistsMsg))
    ensures info.user.None? && FirstLinked(info.idByMethod).None? ==> r == Err(StopIteration)
    ensures info.user.None? && FirstLinked(info.idByMethod).Some? && info.emails == [] ==> r == Err(IndexError)
    ensures info.user.None? && FirstLinked(info.idByMethod).Some? && info.emails != [] ==>
      var form := UserForm(info.emails[0], Join("\n", info.affiliations), info.fullName, info.username);
      && (validates(form) <==> r.Ok?)
      && (!validates(form) ==> r == Err(AuthnResponseError(FormInvalid)))
    ensures r.Err? && r.error.AuthnResponseError? ==>
      && info.user.None? && FirstLinked(info.idByMethod).Some? && info.emails != [] && r.error.failure == FormInvalid
      && !validates(UserForm(info.emails[0], Join("\n", info.affiliations), info.fullName, info.username))
    ensures r.Ok? ==>
      && info.user.None? && info.emails != []
      && r.value.form == UserForm(info.emails[0], Join("\n", info.affiliations), info.fullName, info.username)
      && validates(r.value.form)
      && exists k | 0 <= k < |info.idByMethod| ::
           && info.idByMethod[k] == IdEntry(r.value.meth, Some(r.value.externalId))
           && forall j | 0 <= j < k :: info.idByMethod[j].id.None?
  {
    if info.user.Some? then Err(ValueError(UserExistsMsg))
    else
      var linked := FirstLinked(info.idByMethod);
      if linked.None? then Err(StopIteration)
      else if info.emails == [] then Err(IndexError)
      else
        var form := UserForm(info.emails[0], Join("\n", info.affiliations), info.fullName, info.username);
        if validates(form) then Ok(Registration(form, linked.value.meth, linked.value.id.value))
        else Err(AuthnResponseError(FormInvalid))
  }

  /** Identifiers a response resolved to always give `create_user` a method to link, and it links
      the most preferred method that carried a non-empty identifier. */
  lemma ResolvedIdsLinkable(ava: map<string, seq<string>>, issuer: Option<string>, sha256: string -> string)
    requires ResolvedIds(ava, issuer, sha256).Ok?
    ensures var linked := FirstLinked(ResolvedIds(ava, issuer, sha256).value);
      && linked.Some?
      && exists k | 0 <= k < |IdMethods| ::
           && linked.value.meth == IdMethods[k] && Given(Head(Get(ava, IdMethods[k])))
           && forall j | 0 <= j < k :: !Given(Head(Get(ava, IdMethods[j])))
  {
    var ids := ResolvedIds(ava, issuer, sha256).value;
    ResolvedIdsHashes(ava, issuer, sha256);
    var linked := FirstLinked(ids);
    var k :| 0 <= k < |ids| && ids[k] == linked.value && forall j | 0 <= j < k :: ids[j].id.None?;
    assert linked.value.meth == IdMethods[k];
  }
}
