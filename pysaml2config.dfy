/** The pysaml2 configuration dictionary built from the typed configuration core
    (`invenio_edugain/build_config/pysaml2.py`). */
module Pysaml2Config {
  import opened Base
  import opened JsonValues

  // Values of the pysaml2 constants the builder uses.
  const BindingHttpPost := "urn:oasis:names:tc:SAML:2.0:bindings:HTTP-POST"
  const NameFormatUri := "urn:oasis:names:tc:SAML:2.0:attrname-format:uri"
  const DigestSha256 := "http://www.w3.org/2001/04/xmlenc#sha256"
  const SigRsaSha256 := "http://www.w3.org/2001/04/xmldsig-more#rsa-sha256"
  const Coc := "http://www.geant.net/uri/dataprotection-code-of-conduct/v1"
  const ResearchAndScholarship := "http://refeds.org/category/research-and-scholarship"

  /** The items of a language-to-text dictionary, in insertion order. */
  type LangDict = seq<(string, string)>

  datatype Contacts = Contacts(
    securityContactEmail: string,
    securityContactGivenName: string,
    securityContactSurName: string,
    technicalSupportEmail: string,
    technicalSupportGivenName: string,
    technicalSupportSurName: string)

  datatype Credentials = Credentials(
    encryptionCertFilepath: string,
    encryptionKeyFilepath: string,
    signingCertFilepath: string,
    signingKeyFilepath: string)

  datatype EntityCategoryFlags = EntityCategoryFlags(geantCocCompliant: bool, refedsCompliant: bool)

  datatype Organization = Organization(displaynamesByLang: LangDict, namesByLang: LangDict, urlsByLang: LangDict)

  datatype ProvidedService = ProvidedService(descriptionEn: string, nameEn: string)

  datatype UIInfo = UIInfo(
    descriptionsByLang: LangDict,
    displaynamesByLang: LangDict,
    informationUrlsByLang: LangDict,
    logos: seq<Json>,
    privacyStatementUrlsByLang: LangDict)

  /** A constructed `Pysaml2ConfigCore`; e-mail addresses are held normalised and file paths as
      the strings `str()` gives. */
  datatype Core = Core(
    category: EntityCategoryFlags,
    contact: Contacts,
    credentials: Credentials,
    org: Organization,
    serverDomainMain: string,
    serverDomainOthers: seq<string>,
    service: ProvidedService,
    uiInfo: UIInfo)

  /** `url_for_server(app, server_name, endpoint)`, whose URL building is werkzeug's. */
  type UrlFor = (Option<string>, string) -> string

  /** The entity categories claimed: Code of Conduct when compliant with it, then Research and
      Scholarship when compliant with it. */
  function EntityCategories(c: EntityCategoryFlags): (r: seq<string>)
    ensures Coc in r <==> c.geantCocCompliant
    ensures ResearchAndScholarship in r <==> c.refedsCompliant
    ensures |r| == (if c.geantCocCompliant then 1 else 0) + (if c.refedsCompliant then 1 else 0)
    ensures c.geantCocCompliant && c.refedsCompliant ==> r == [Coc, ResearchAndScholarship]
  {
    (if c.geantCocCompliant then [Coc] else []) + (if c.refedsCompliant then [ResearchAndScholarship] else [])
  }

  /** The conditional appends that build `entity_categories`. */
  method CollectEntityCategories(c: EntityCategoryFlags) returns (entityCategories: seq<string>)
    ensures entityCategories == EntityCategories(c)
  {
    entityCategories := [];
    if c.geantCocCompliant {
      entityCategories := entityCategories + [Coc];
    }
    if c.refedsCompliant {
      entityCategories := entityCategories + [ResearchAndScholarship];
    }
  }

  /** The `(text, lang)` tuples of a language dictionary, in its order. */
  function LangPairs(d: LangDict): (r: seq<Json>)
    ensures |r| == |d|
  {
    seq(|d|, k requires 0 <= k < |d| => JTuple([JStr(d[k].1), JStr(d[k].0)]))
  }

  /** Reads `(text, lang)` tuples back into dictionary items. */
  function PairsToLangDict(items: seq<Json>): Option<LangDict>
    decreases |items|
  {
    if items == [] then Some([])
    else if items[0].JTuple? && |items[0].items| == 2 && items[0].items[0].JStr? && items[0].items[1].JStr? then
      match PairsToLangDict(items[1..])
      case Some(rest) => Some([(items[0].items[1].s, items[0].items[0].s)] + rest)
      case None => None
    else None
  }

  /** The tuples keep every entry, swapped, in order: reading them back gives the dictionary. */
  lemma {:induction false} LangPairsRoundTrip(d: LangDict)
    ensures PairsToLangDict(LangPairs(d)) == Some(d)
    decreases |d|
  {
    if d != [] {
      assert LangPairs(d)[1..] == LangPairs(d[1..]);
      LangPairsRoundTrip(d[1..]);
      assert [d[0]] + d[1..] == d;
    }
  }

  /** The `{"text", "lang"}` dictionaries of a language dictionary, in its order. */
  function TextLangEntries(d: LangDict): (r: seq<Json>)
    ensures |r| == |d|
  {
    seq(|d|, k requires 0 <= k < |d| => JDict(map["text" := JStr(d[k].1), "lang" := JStr(d[k].0)]))
  }

  /** Reads `{"text", "lang"}` dictionaries back into dictionary items. */
  function TextLangToLangDict(items: seq<Json>): Option<LangDict>
    decreases |items|
  {
    if items == [] then Some([])
    else if items[0].JDict? && items[0].fields.Keys == {"text", "lang"}
         && items[0].fields["text"].JStr? && items[0].fields["lang"].JStr? then
      match TextLangToLangDict(items[1..])
      case Some(rest) => Some([(items[0].fields["lang"].s, items[0].fields["text"].s)] + rest)
      case None => None
    else None
  }

  lemma {:induction false} TextLangRoundTrip(d: LangDict)
    ensures TextLangToLangDict(TextLangEntries(d)) == Some(d)
    decreases |d|
  {
    if d != [] {
      assert TextLangEntries(d)[1..] == TextLangEntries(d[1..]);
      TextLangRoundTrip(d[1..]);
      var e := TextLangEntries(d)[0];
      assert e.fields.Keys == {"text", "lang"};
      assert [d[0]] + d[1..] == d;
    }
  }

  /** Whether `d` is a dictionary mapping `key` to `v`. */
  predicate Has(d: Json, key: string, v: Json) {
    d.JDict? && key in d.fields && d.fields[key] == v
  }

  /** The REFEDS extension attributes marking a security contact. */
  const RefedsSecurityContact := JDict(map[
    "xmlns:remd" := JStr("http://refeds.org/metadata"),
    "remd:contactType" := JStr("http://refeds.org/metadata/contactType/security")])

  /** The two contact persons: technical support first, then the security contact (type
      "other", with the REFEDS security contact-type extension). */
  function ContactPersons(c: Contacts): (r: seq<Json>)
    ensures |r| == 2
    ensures && Has(r[0], "contact_type", JStr("technical"))
            && Has(r[0], "email_address", JList([JStr("mailto:" + c.technicalSupportEmail)]))
            && Has(r[0], "given_name", JStr(c.technicalSupportGivenName))
            && Has(r[0], "sur_name", JStr(c.technicalSupportSurName))
    ensures && Has(r[1], "contact_type", JStr("other"))
            && Has(r[1], "email_address", JList([JStr("mailto:" + c.securityContactEmail)]))
            && Has(r[1], "given_name", JStr(c.securityContactGivenName))
            && Has(r[1], "sur_name", JStr(c.securityContactSurName))
            && Has(r[1], "extension_attributes", RefedsSecurityContact)
  {
    [
      JDict(map[
        "email_address" := JList([JStr("mailto:" + c.technicalSupportEmail)]),
        "given_name" := JStr(c.technicalSupportGivenName),
        "sur_name" := JStr(c.technicalSupportSurName),
        "contact_type" := JStr("technical")]),
      JDict(map[
        "email_address" := JList([JStr("mailto:" + c.securityContactEmail)]),
        "extension_attributes" := RefedsSecurityContact,
        "given_name" := JStr(c.securityContactGivenName),
        "sur_name" := JStr(c.securityContactSurName),
        "contact_type" := JStr("other")])
    ]
  }

  /** The servers the SP answers on: the main domain, then the others in order. */
  function ServerDomains(core: Core): seq<string> {
    [core.serverDomainMain] + core.serverDomainOthers
  }

  /** One assertion consumer service per server, each with the HTTP-POST binding. */
  function AcsEndpoints(core: Core, urlFor: UrlFor): (r: seq<Json>)
    ensures |r| == 1 + |core.serverDomainOthers|
    ensures r[0] == JTuple([JStr(urlFor(Some(core.serverDomainMain), "invenio_edugain.acs")), JStr(BindingHttpPost)])
    ensures forall k | 0 <= k < |core.serverDomainOthers| ::
      r[k + 1] == JTuple([JStr(urlFor(Some(core.serverDomainOthers[k]), "invenio_edugain.acs")), JStr(BindingHttpPost)])
  {
    var domains := ServerDomains(core);
    seq(|domains|, k requires 0 <= k < |domains| =>
      JTuple([JStr(urlFor(Some(domains[k]), "invenio_edugain.acs")), JStr(BindingHttpPost)]))
  }

  function UIInfoDict(u: UIInfo): Json {
    JDict(map[
      "description" := JList(TextLangEntries(u.descriptionsByLang)),
      "display_name" := JList(TextLangEntries(u.displaynamesByLang)),
      "information_url" := JList(TextLangEntries(u.informationUrlsByLang)),
      "privacy_statement_url" := JList(TextLangEntries(u.privacyStatementUrlsByLang)),
      "logo" := JList(u.logos)])
  }

  /** `build_sp`: the `service.sp` part. */
  function BuildSp(core: Core, urlFor: UrlFor): Json {
    JDict(map[
      "allow_unsolicited" := JBool(true),
      "authn_requests_signed" := JBool(false),
      "digest_algorithm" := JStr(DigestSha256),
      "endpoints" := JDict(map["assertion_consumer_service" := JList(AcsEndpoints(core, urlFor))]),
      "force_authn" := JBool(false),
      "name_id_format_allow_create" := JBool(true),
      "optional_attributes" := JList(StrList(["eduPersonPrincipalName", "eduPersonScopedAffiliation"])),
      "signing_algorithm" := JStr(SigRsaSha256),
      "requested_attributes" := JList([]),
      "required_attributes" := JList(StrList(["displayName", "givenName", "mail", "sn"])),
      "ui_info" := UIInfoDict(core.uiInfo),
      "want_assertions_signed" := JBool(false),
      "want_assertions_or_response_signed" := JBool(true),
      "want_response_signed" := JBool(false)])
  }

  function OrganizationDict(o: Organization): Json {
    JDict(map[
      "name" := JList(LangPairs(o.namesByLang)),
      "display_name" := JList(LangPairs(o.displaynamesByLang)),
      "url" := JList(LangPairs(o.urlsByLang))])
  }

  /** The `organization` dictionary, filled key by key. */
  method FillOrganization(o: Organization) returns (organization: map<string, Json>)
    ensures JDict(organization) == OrganizationDict(o)
  {
    organization := map[];
    organization := organization["name" := JList(LangPairs(o.namesByLang))];
    organization := organization["display_name" := JList(LangPairs(o.displaynamesByLang))];
    organization := organization["url" := JList(LangPairs(o.urlsByLang))];
  }

  /** The entries of the configuration that do not depend on the core. */
  function FixedEntries(xmlsecBinary: string): map<string, Json> {
    map[
      "accepted_time_diff" := JInt(60),
      "allow_unknown_attributes" := JBool(true),
      "entity_attributes" := JList([JDict(map[
        "format" := JStr(NameFormatUri),
        "name" := JStr("urn:oasis:names:tc:SAML:profiles:subject-id:req"),
        "values" := JList([JStr("any")])])]),
      "http_client_timeout" := JInt(10),
      "logging" := JNull,
      "metadata" := JList([JDict(map[
        "class" := JStr("invenio_edugain.utils.MetaDataFlaskSQL"),
        "metadata" := JList([JTuple([JNull])])])]),
      "xmlsec_binary" := JStr(xmlsecBinary)]
  }

  /** The contacts, entity categories, organisation and SP part. */
  function PartyEntries(core: Core, urlFor: UrlFor): map<string, Json> {
    map[
      "contact_person" := JList(ContactPersons(core.contact)),
      "entity_category" := JList(StrList(EntityCategories(core.category))),
      "organization" := OrganizationDict(core.org),
      "service" := JDict(map["sp" := BuildSp(core, urlFor)])]
  }

  /** The description, entity id and name of the service. */
  function ServiceEntries(core: Core, urlFor: UrlFor): map<string, Json> {
    map[
      "description" := JTuple([JStr(core.service.descriptionEn), JStr("en")]),
      "entityid" := JStr(urlFor(Some(core.serverDomainMain), "invenio_edugain.sp_xml")),
      "name" := JStr(core.service.nameEn)]
  }

  /** The signing and encryption credentials. */
  function CredentialEntries(c: Credentials): map<string, Json> {
    map[
      "cert_file" := JStr(c.signingCertFilepath),
      "key_file" := JStr(c.signingKeyFilepath),
      "encryption_keypairs" := JList([JDict(map[
        "key_file" := JStr(c.encryptionKeyFilepath),
        "cert_file" := JStr(c.encryptionCertFilepath)])])]
  }

  /** `build_pysaml2_config`; `xmlsecBinary` is what `get_xmlsec_binary` finds. The dictionary is
      assembled from groups of its (distinct) keys. */
  function BuildPysaml2Config(core: Core, urlFor: UrlFor, xmlsecBinary: string): Json {
    JDict(FixedEntries(xmlsecBinary) + PartyEntries(core, urlFor) + ServiceEntries(core, urlFor) + CredentialEntries(core.credentials))
  }

  /** The credentials group is part of the configuration as it is. */
  lemma CredentialsInConfig(core: Core, urlFor: UrlFor, xmlsecBinary: string, k: string)
    requires k in CredentialEntries(core.credentials)
    ensures BuildPysaml2Config(core, urlFor, xmlsecBinary).fields[k] == CredentialEntries(core.credentials)[k]
  {
  }

  /** A key the right-hand map does not hold keeps the left-hand value. */
  lemma MergeKeepsLeft<K, V>(a: map<K, V>, b: map<K, V>, k: K)
    requires k in a && k !in b
    ensures (a + b)[k] == a[k]
  {
  }

  /** So is the service group, whose keys the credentials do not reuse. */
  lemma ServiceInConfig(core: Core, urlFor: UrlFor, xmlsecBinary: string, k: string)
    requires k in ServiceEntries(core, urlFor)
    ensures BuildPysaml2Config(core, urlFor, xmlsecBinary).fields[k] == ServiceEntries(core, urlFor)[k]
  {
    var left := FixedEntries(xmlsecBinary) + PartyEntries(core, urlFor) + ServiceEntries(core, urlFor);
    var creds := CredentialEntries(core.credentials);
    ServiceNotCredential(core, urlFor, k);
    MergeKeepsLeft(left, creds, k);
  }

  lemma ServiceNotCredential(core: Core, urlFor: UrlFor, k: string)
    requires k in ServiceEntries(core, urlFor)
    ensures k !in CredentialEntries(core.credentials)
  {
    assert k == "description" || k == "entityid" || k == "name";
    assert CredentialEntries(core.credentials).Keys == {"cert_file", "key_file", "encryption_keypairs"};
  }

  /** The signing paths are the top-level certificate and key; the encryption paths form the one
      encryption key pair. */
  lemma CredentialsPlaced(c: Credentials)
    ensures var d := CredentialEntries(c);
      && d["cert_file"] == JStr(c.signingCertFilepath)
      && d["key_file"] == JStr(c.signingKeyFilepath)
      && d["encryption_keypairs"].JList? && |d["encryption_keypairs"].items| == 1
      && Has(d["encryption_keypairs"].items[0], "key_file", JStr(c.encryptionKeyFilepath))
      && Has(d["encryption_keypairs"].items[0], "cert_file", JStr(c.encryptionCertFilepath))
  {
  }

  /** The service is described in English by its description, named by its English name, and
      identified by the URL of its metadata on the main domain. */
  lemma ServiceNamed(core: Core, urlFor: UrlFor)
    ensures var d := ServiceEntries(core, urlFor);
      && d["description"] == JTuple([JStr(core.service.descriptionEn), JStr("en")])
      && d["name"] == JStr(core.service.nameEn)
      && d["entityid"] == JStr(urlFor(Some(core.serverDomainMain), "invenio_edugain.sp_xml"))
  {
  }

  /** The organisation's names, display names and URLs are its dictionaries as `(text, lang)`
      tuples, and each can be read back. */
  lemma OrganizationPairs(o: Organization)
    ensures var d := OrganizationDict(o).fields;
      && PairsToLangDict(d["name"].items) == Some(o.namesByLang)
      && PairsToLangDict(d["display_name"].items) == Some(o.displaynamesByLang)
      && PairsToLangDict(d["url"].items) == Some(o.urlsByLang)
  {
    LangPairsRoundTrip(o.namesByLang);
    LangPairsRoundTrip(o.displaynamesByLang);
    LangPairsRoundTrip(o.urlsByLang);
  }

  /** The mdui texts of the SP are its dictionaries as `{"text", "lang"}` entries, and the logos
      are copied. */
  lemma UIInfoEntries(u: UIInfo)
    ensures var d := UIInfoDict(u).fields;
      && TextLangToLangDict(d["description"].items) == Some(u.descriptionsByLang)
      && TextLangToLangDict(d["display_name"].items) == Some(u.displaynamesByLang)
      && TextLangToLangDict(d["information_url"].items) == Some(u.informationUrlsByLang)
      && TextLangToLangDict(d["privacy_statement_url"].items) == Some(u.privacyStatementUrlsByLang)
      && d["logo"] == JList(u.logos)
  {
    TextLangRoundTrip(u.descriptionsByLang);
    TextLangRoundTrip(u.displaynamesByLang);
    TextLangRoundTrip(u.informationUrlsByLang);
    TextLangRoundTrip(u.privacyStatementUrlsByLang);
  }
}
