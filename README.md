# invenio-edugain: a verified model of its core

invenio-edugain makes an InvenioRDM site a SAML2 service provider (SP) inside the eduGAIN
federation. This project models the rules that sit under its Flask, pysaml2 and database glue, and
proves what those rules promise. The modelled parts are:

- **Metadata reconciliation** (`Ingest`). A freshly loaded metadata store is diffed against the
  persisted IdP rows. Each IdP id is reported as added, updated or unchanged, and changed settings
  are overwritten in place. The persisted table is the class `Models.IdPTable`, whose `rows` map
  the loop updates.
- **Authentication-response resolution** (`Utils`). This covers:
  - identifier extraction in a fixed preference order (pairwise-id, subject-id,
    eduPersonPrincipalName);
  - rejection of a method that has several values;
  - the `issuer!id` form of the pairwise-id, where the issuer is the `<Issuer>` element
    (section 2.2.5 of SAML 2.0 Core);
  - hashing, and the "no identification" failure;
  - the attributes, the full name and the username cascade;
  - detection of identifiers that lead to different users;
  - `create_user`'s choice of the method to link.

  It also models:
  - the argument checks of `load_mdstore`, including its exact-string fingerprint comparison;
  - `get_idp_data_dict`;
  - the database metadata loader `MetaDataFlaskSQL`.
- **Admin commands** (`Cli`). `manage` validates its flags and collects every message before exit
  status 2. It exits 1 on unknown ids. It then flips `enabled` and `discoverable` only where they
  change, and counts those ids. `search` filters the ids with the pattern as a parameter. The module
  also covers the `MetadataLoader`.
- **Discovery feed and authentication request** (`Views`).
  - `disco_feed` keeps the ids that are in the metadata and are enabled and discoverable rows, in
    ascending order.
  - `DisplayNames` holds the first name per language, with languages in the order they first
    appear. Keywords are flattened, and each logo is copied with its language only when it has one.
    These are the mdui elements of the OASIS SAML V2.0 Metadata Extensions for Login and Discovery
    User Interface.
  - `authn_request` chooses the first assertion consumer service (ACS) URL under the request's host
    and requires exactly one `Location` header.
- **The typed configuration core** (`ConfigCore`). `parse_fields` resolves each dataclass field
  along one of three paths:
  - an explicit value is coerced;
  - an `ABSENT` nested class is built from the Flask configuration;
  - an `ABSENT` plain field is read from the Flask configuration, with JSON parsing for list and
    dict types.

  Every field's error is collected, and construction raises the group exception exactly when there
  is one.
- **Configuration mapping**. `Pysaml2Config` covers `build_pysaml2_config` and `build_sp`.
  `ShibbolethEds` covers the embedded discovery service's configuration. `ServerUrl` covers
  `url_for_server`, which decides relative or absolute URL, the script name, the scheme and
  trailing-slash trimming.
- **The test comparator** (`JsonMismatch`). `find_json_mismatches` is proved to return `None`
  exactly when the two trees are equal, with the same Python types throughout.

Helper modules:
- `Base`: `Option`, `Result`, `Filter`, `Concat`.
- `JsonValues`: JSON with tuples, plus a catch-all for other Python types.
- `Text`: Python `str` operations.
- `StringOrder`: Python's `str` ordering, and `sorted` of a set.

Foreign pieces are function-typed parameters:
- SHA-256;
- the regular-expression search;
- `json.loads`;
- the type constructors used for coercion;
- `validators.url`;
- `urisplit`/`uricompose`;
- werkzeug's `url_map.bind`/`build`;
- `re.escape`;
- the account database's user lookup;
- form validation;
- pysaml2's `prepare_for_authenticate`.

Where the code and the repository's documentation disagree, the model follows the code:
- The downloaded certificate's fingerprint is compared as an exact string
  (`invenio_edugain/utils.py:97`). It is not normalised for case or format, so a lower-case
  fingerprint is refused when the library writes the digest in upper case (lemma
  `Utils.FingerprintIsCaseSensitive`).
- Ingestion compares and writes only `settings` (`invenio_edugain/ingest.py:37-49`). It never
  derives a display name or a logo URL, so rows it creates have neither.
- `manage` exits 1, not 2, when an id names no stored IdP (`invenio_edugain/cli.py:199-202`).

## Model

| member | source | states |
|---|---|---|
| Models.NewRow | invenio_edugain/models.py:15-32 | a row created from an id and settings has that id and those settings, and is not enabled (the column default) |
| Ingest.Reconciled | invenio_edugain/ingest.py:32-52 | after a run the table holds the old rows plus every id of the store; rows of ids outside the store are unchanged; no column other than `settings` of an existing row differs; every id of the store holds the store's settings |
| Ingest.FromMdstore | invenio_edugain/ingest.py:27-54 | the table after the run is `Reconciled` of the old rows, and the report is that of visiting the store's ids in ascending order |
| Ingest.IngestIds | invenio_edugain/ingest.py:35-50 | the loop, over ids that are exactly the store's, leaves the reconciled table and the report of its visiting order, and keeps every row under its own id |
| Ingest.ReportOfMembers | invenio_edugain/ingest.py:37-49 | an id is in the added, updated or unchanged list exactly when it was visited and has no row, has a row with other settings, or has a row with equal settings |
| Ingest.ReportOfSorted | invenio_edugain/ingest.py:31-49 | visiting ids in ascending order makes each of the three lists ascending |
| Ingest.ReportPartitions | invenio_edugain/ingest.py:31-49 | the three lists are ascending, disjoint, and together hold exactly the ids of the store |
| Ingest.ReconcileEffect | invenio_edugain/ingest.py:36-49 | a new id is reported added and gets a new row with the store's settings; a changed one is reported updated and has only its settings replaced; an equal one is reported unchanged and its row is left alone |
| Ingest.IngestIntoEmpty | tests/test_ingestion.py:26-29 | ingesting into an empty table adds every id of the store, in ascending order, and updates none |
| Ingest.IngestTwice | tests/test_ingestion.py:31-34 | a second run with the same store adds and updates nothing and reports every id unchanged |
| Utils.GetIdpDataDict | invenio_edugain/utils.py:51-62 | exactly the enabled rows appear, each with its display name and logo URL |
| Utils.MetaDataFlaskSQL.Load | invenio_edugain/utils.py:139-144 | the entity table gains the settings of every enabled row and nothing else |
| Utils.LoadMdstore | invenio_edugain/utils.py:79-119 | a non-URL location is loaded locally; URL metadata without a certificate is a TypeError; a URL certificate without a fingerprint is a TypeError; a fingerprint that is not exactly the downloaded certificate's digest is a ValueError, and only then is there a ValueError; a certificate that is not a URL loads the remote metadata against it; a downloaded certificate is used only when it is a URL whose digest equals the fingerprint |
| Utils.TypeErrorsPrecedeDownload | invenio_edugain/utils.py:79-91 | the TypeErrors do not depend on the downloaded certificate, so they are raised before any download |
| Utils.RemoteMetadataIsChecked | invenio_edugain/utils.py:79-117 | URL metadata is accepted exactly when a certificate is given and, for a certificate URL, the fingerprint equals the downloaded certificate's digest |
| Utils.FingerprintIsCaseSensitive | invenio_edugain/utils.py:96-99 | a fingerprint differing from the digest only in letter case is refused with the mismatch ValueError |
| Utils.FirstMultiple | invenio_edugain/utils.py:188-192 | no method is reported exactly when every method has at most one value; a reported method has several |
| Utils.FirstMultipleAt | invenio_edugain/utils.py:188-192 | the reported method is the first, in preference order, that has several values |
| Utils.ExtractIds | invenio_edugain/utils.py:187-193 | the extraction loop raises for the first method with several values; otherwise it yields each method's single value or none, in order, and pops exactly the methods from the attributes |
| Utils.HashIds | invenio_edugain/utils.py:204-206 | each non-empty identifier is replaced by its hash, and an empty or missing one by `None`; methods and order are kept |
| Utils.MatchUser | invenio_edugain/utils.py:227-235 | the result is the first user found over the methods in order, and an AuthnResponseError is raised exactly when the identifiers lead to two different users |
| Utils.ConflictPersists | invenio_edugain/utils.py:227-235 | two different users among the first identifiers are still two different users among all of them, so stopping early is sound |
| Utils.ResolveIds | invenio_edugain/utils.py:187-210 | extraction, the issuer rule, hashing and the no-identification check give `ResolvedIds`, and the identifier methods are popped |
| Utils.ReadAttributes | invenio_edugain/utils.py:212-217 | the affiliations, display names, mails, given names and surnames are popped; `email` is read without popping and appended to the mails; its absence is a KeyError |
| Utils.FromSamlResponse | invenio_edugain/utils.py:165-246 | an unparsed response, an identifier error, a missing `email` or a user conflict is the matching error; otherwise the info holds the resolved identifiers, the unread attributes, the affiliations, the mails then emails, the stripped full name, the username cascade (first display name, else the part of the first email before `@`, else the full name), `next` and the first user found |
| Utils.ResolvedIdsHashes | invenio_edugain/utils.py:195-206 | each resolved entry belongs to its method and has an identifier exactly when the method had a non-empty one: the hash of `issuer!id` for the pairwise-id, and the hash of the value for the others |
| Utils.NoIdentificationIff | invenio_edugain/utils.py:204-210 | "no known kinds of identification" is raised exactly when the earlier checks pass and no method carries a non-empty identifier |
| Utils.HashedNoneIff | invenio_edugain/utils.py:196-208 | after the issuer rule and hashing, every entry is `None` exactly when no identifier was non-empty |
| Utils.FirstLinked | invenio_edugain/utils.py:259-261 | the chosen entry is the first with an identifier, and there is none exactly when no entry has one |
| Utils.CreateUser | invenio_edugain/utils.py:249-294 | an existing user is a ValueError; with no identifier the `next` call raises; with no email the index raises; once those pass, the result is a registration exactly when the form validates, and a form that does not validate is an AuthnResponseError; a registration the form has the first email, the newline-joined affiliations, the full name and the username, and the first method with an identifier is linked |
| Utils.ResolvedIdsLinkable | invenio_edugain/utils.py:258-261 | a resolved response always gives `create_user` a method to link: the most preferred method with a non-empty identifier |
| Cli.MetadataLoader.Load | invenio_edugain/cli.py:77-83 | every row's settings go into the entity table and every row into `idp_data` |
| Cli.MatchCandidates | invenio_edugain/cli.py:106-115 | the candidates are exactly the display names, the non-empty name and the keyword texts |
| Cli.Search | invenio_edugain/cli.py:104-118 | the results are in ascending id order, and an id is among them exactly when the pattern finds the id or one of its candidates; each result carries its row and its candidates |
| Cli.SearchIds | invenio_edugain/cli.py:105-118 | the loop keeps, in visiting order, exactly the selected ids |
| Cli.UsageErrors | invenio_edugain/cli.py:178-188 | each of the four messages is collected exactly when its condition holds (no ids; disable with enable; hide with show; no action), in source order |
| Cli.Applied | invenio_edugain/cli.py:206-218 | applying the actions changes no field of a row other than `enabled` and `discoverable` |
| Cli.ChangedIds | invenio_edugain/cli.py:204-218 | the updated ids are exactly the named, stored ids whose row the actions change |
| Cli.UnknownIds | invenio_edugain/cli.py:199 | the unknown ids are exactly the given ids without a row |
| Cli.AppliedIdempotent | invenio_edugain/cli.py:205-218 | applying the same actions twice is applying them once |
| Cli.Manage | invenio_edugain/cli.py:157-221 | a misuse gives exit status 2 with every message and no change; unknown ids give exit status 1 with them sorted and no change; otherwise the actions are applied to the named rows and the changed ids are reported |
| Cli.ApplyFlags | invenio_edugain/cli.py:204-218 | the update loop leaves `Managed` of the old rows and reports `ChangedIds` |
| Cli.ApplyToRow | invenio_edugain/cli.py:206-218 | one row gets the actions, and it counts as updated exactly when a flag flips |
| Cli.FlipsIffChanges | invenio_edugain/cli.py:207-218 | with consistent flags, some `if` branch fires exactly when the row changes |
| Cli.ManagedSatisfiesFlags | invenio_edugain/cli.py:205-218 | after success, a named IdP is enabled, disabled, hidden or shown as asked, and flags not asked for are kept; rows not named are unchanged |
| Cli.ChangedIdsExact | invenio_edugain/cli.py:204-221 | an id is counted exactly when it is named and an action flips one of its flags |
| Cli.ManageTwice | invenio_edugain/cli.py:204-218 | running the same `manage` again changes nothing and counts no id |
| Views.NameCandidates | invenio_edugain/views.py:76-88 | the names considered are exactly the mdui display names and the organisation's display names, names and URLs |
| Views.DisplayNamesFirstWins | invenio_edugain/views.py:76-92 | each `DisplayNames` entry holds the first name in its language, and the entries come in the order the languages first appear, so no language occurs twice |
| Views.DisplayNamesComplete | invenio_edugain/views.py:76-92 | every language among the names has an entry |
| Views.GroupNames | invenio_edugain/views.py:76-92 | the grouping loop over a first-seen-ordered dictionary of lists yields `DisplayNames` |
| Views.KeywordsOfOne | invenio_edugain/views.py:94-98 | one `<UIInfo>` contributes each of its keywords as language and text, in order |
| Views.KeywordsAppend | invenio_edugain/views.py:94-98 | the keywords of several `<UIInfo>` elements come element after element |
| Views.LogoEntries | invenio_edugain/views.py:100-111 | one entry per logo, in order, with its URL, height and width, and a language exactly when the logo has one |
| Views.CollectLogos | invenio_edugain/views.py:100-111 | the nested logo loop yields `LogoEntries` |
| Views.DiscoFeed | invenio_edugain/views.py:62-115 | the feed lists, in ascending order, exactly the ids in the metadata that are enabled and discoverable rows, each entry built from that IdP's metadata |
| Views.BuildFeed | invenio_edugain/views.py:72-113 | one entry per id, in the given order |
| Views.RelayState | invenio_edugain/views.py:130-134 | the relay state is the safe `next` target, else the post-login view, else "/", and is never empty |
| Views.FirstWithPrefix | invenio_edugain/views.py:144-151 | the ACS URL found starts with the host URL, and none is found exactly when no service URL does |
| Views.FirstWithPrefixIsFirst | invenio_edugain/views.py:146-149 | the URL found is the first one with the prefix |
| Views.FindAcsUrl | invenio_edugain/views.py:144-151 | the for/else search yields `FirstWithPrefix` |
| Views.LocationHeaders | invenio_edugain/views.py:161-165 | the values collected are exactly those of the `Location` headers; one header gives its value if it is a `Location` and nothing otherwise |
| Views.LocationHeadersAppend | invenio_edugain/views.py:161-165 | collecting distributes over concatenation of the headers, so with the one-header case the values, their number and their order are those of the `Location` headers |
| Views.RedirectFor | invenio_edugain/views.py:166-179 | zero or several `Location` headers are a ValueError; exactly one gives a redirect, to that header, with the status as its code exactly when the status is truthy |
| Views.SingleLocationRedirects | invenio_edugain/views.py:161-179 | a single `Location` header among headers of other names, however many, gives the redirect to its URL |
| Views.RepeatedLocationRefused | invenio_edugain/views.py:170-173 | two identical `Location` headers are refused too |
| Views.AuthnRequest | invenio_edugain/views.py:118-179 | a missing `entityID` is a 400; no ACS URL for the host is a 400; otherwise the redirect is the one for the IdP, the relay state and the first matching ACS URL |
| ConfigCore.Coerce | invenio_edugain/build_config/pysaml2_core.py:55-70 | coercion succeeds with the type constructor's value, or records its failure for the field |
| ConfigCore.FromFlaskConfig | invenio_edugain/build_config/pysaml2_core.py:72-116 | no configuration key, no Flask configuration or a missing key are the three errors, in that order; a success is the coerced configuration value, JSON-parsed first when it is a string for a list or dict field |
| ConfigCore.ConfigCoreObject.ParseFields | invenio_edugain/build_config/pysaml2_core.py:118-153 | the loop sets and collects exactly as `Parse` over all fields |
| ConfigCore.Construct | invenio_edugain/build_config/pysaml2_core.py:155-160 | construction is `parse_fields` on a fresh instance followed by the group exception if anything was collected |
| ConfigCore.ParseVisitsEveryField | invenio_edugain/build_config/pysaml2_core.py:118-153 | every field is visited on its original value; the exceptions are the failing fields' exceptions, in order; a resolved field holds its value, a failing field keeps its own, and no other attribute changes |
| ConfigCore.ConstructedFailsIff | invenio_edugain/build_config/pysaml2_core.py:155-160 | construction raises exactly when some field fails |
| ConfigCore.ExplicitValueWins | invenio_edugain/build_config/pysaml2_core.py:145-149 | a passed value is coerced, and the Flask configuration is not consulted |
| ConfigCore.NestedClassBuilt | invenio_edugain/build_config/pysaml2_core.py:125-134 | an `ABSENT` nested class is built from the same Flask configuration; its group exception is recorded with the field rather than raised |
| ConfigCore.JsonParseFailureRecorded | invenio_edugain/build_config/pysaml2_core.py:101-110 | a configuration string that `json.loads` refuses is recorded as that failure |
| ConfigCore.NoFlaskConfigNoValue | invenio_edugain/build_config/pysaml2_core.py:89-91 | a keyed field with neither a value nor a Flask configuration fails with the TypeError naming its key |
| ConfigCore.EntityCategoriesNeedConfig | invenio_edugain/build_config/pysaml2_core.py:200-210 | with nothing passed and no Flask configuration, the entity-category class raises a group of both fields' errors, in order |
| Pysaml2Config.EntityCategories | invenio_edugain/build_config/pysaml2.py:65-69 | Code of Conduct is claimed exactly when compliant with it, Research and Scholarship exactly when compliant with it, and Code of Conduct comes first |
| Pysaml2Config.CollectEntityCategories | invenio_edugain/build_config/pysaml2.py:65-69 | the conditional appends yield `EntityCategories` |
| Pysaml2Config.LangPairsRoundTrip | invenio_edugain/build_config/pysaml2.py:72-82 | the `(text, lang)` tuples read back into the language dictionary, entry for entry and in order |
| Pysaml2Config.TextLangRoundTrip | invenio_edugain/build_config/pysaml2.py:146-161 | the `{"text", "lang"}` entries read back into the language dictionary, entry for entry and in order |
| Pysaml2Config.ContactPersons | invenio_edugain/build_config/pysaml2.py:41-62 | two contacts: technical support first, then the security contact as type "other" with the REFEDS extension; each address is prefixed with `mailto:` |
| Pysaml2Config.AcsEndpoints | invenio_edugain/build_config/pysaml2.py:136-142 | one HTTP-POST ACS endpoint per domain, the main domain first and then the others in order |
| Pysaml2Config.FillOrganization | invenio_edugain/build_config/pysaml2.py:71-82 | the key-by-key filling yields the organisation dictionary |
| Pysaml2Config.OrganizationPairs | invenio_edugain/build_config/pysaml2.py:71-82 | the organisation's names, display names and URLs read back into their language dictionaries |
| Pysaml2Config.UIInfoEntries | invenio_edugain/build_config/pysaml2.py:144-163 | the descriptions, display names, information URLs and privacy URLs read back into their dictionaries, and the logos are copied |
| Pysaml2Config.CredentialsPlaced | invenio_edugain/build_config/pysaml2.py:121-128 | the signing paths are the certificate and key file, and the encryption paths form the one encryption key pair |
| Pysaml2Config.CredentialsInConfig | invenio_edugain/build_config/pysaml2.py:121-128 | the credential entries appear in the configuration as built |
| Pysaml2Config.ServiceNamed | invenio_edugain/build_config/pysaml2.py:88-116 | the description is `(description_en, "en")`, the name is `name_en`, and the entity id is the metadata URL on the main domain |
| Pysaml2Config.ServiceInConfig | invenio_edugain/build_config/pysaml2.py:84-130 | the service entries appear in the configuration as built |
| ShibbolethEds.ServerNamesTrimmed | invenio_edugain/build_config/shibboleth.py:79-85 | no collected server name ends in `/` |
| ShibbolethEds.CollectServerNames | invenio_edugain/build_config/shibboleth.py:79-85 | the truthy settings among SERVER_NAME, SITE_UI_URL and SITE_API_URL, in that order, each without trailing slashes |
| ShibbolethEds.SortedDistinct | invenio_edugain/build_config/shibboleth.py:88 | the names deduplicated, in ascending order |
| ShibbolethEds.AllowedNames | invenio_edugain/build_config/shibboleth.py:79-88 | the servers that may be returned to: exactly the collected names, ascending, each once |
| ShibbolethEds.RedirectAllow | invenio_edugain/build_config/shibboleth.py:87-92 | each name contributes `^esc$` and then `^esc/.*$`, so there are twice as many patterns as names |
| ShibbolethEds.CollectRedirectAllow | invenio_edugain/build_config/shibboleth.py:87-92 | the pattern loop yields `RedirectAllow` |
| ShibbolethEds.ConfiguredServersAllowed | invenio_edugain/build_config/shibboleth.py:79-92 | every truthy configured server has both of its patterns |
| ShibbolethEds.OnlyConfiguredServersAllowed | invenio_edugain/build_config/shibboleth.py:79-92 | every pattern is one of the two patterns of a configured server |
| ShibbolethEds.BuildShibbolethEdsConfig | invenio_edugain/build_config/shibboleth.py:74-109 | the builder yields `EdsConfig`: its four entries merged with the keyword arguments |
| ShibbolethEds.KeywordsWin | invenio_edugain/build_config/shibboleth.py:109 | the keys are the keyword arguments' plus the four computed ones, and every keyword argument wins over a computed entry |
| ShibbolethEds.FixedDefaults | invenio_edugain/build_config/shibboleth.py:94-109 | each computed entry not overridden by a keyword argument is kept: `dataSource` is the relative feed URL, `defaultReturn` the `authn_request` URL on SERVER_NAME, `redirectAllow` the patterns of the allowed names, and `ignoreURLParams` false |
| ShibbolethEds.DataSourceRelative | invenio_edugain/build_config/shibboleth.py:95-99 | the feed URL is built as a relative URL: no server name, no script name, not external |
| ServerUrl.TrimServerName | invenio_edugain/build_config/utils.py:66-68 | a name of slashes only is kept as it is; any other name loses exactly its trailing slashes and is left non-empty without a trailing `/` |
| ServerUrl.TrimServerNameIdempotent | invenio_edugain/build_config/utils.py:66-68 | trimming twice is trimming once |
| ServerUrl.BindingFor | invenio_edugain/build_config/utils.py:18-79 | `url_for_server` builds with this binding; the URL is absolute exactly when a name is given that does not stand for a path; a path name (`/` but not `//`, or `./`) is the script name, with an empty server name; no name gives an empty relative binding; the scheme is passed on, in lower case, exactly when the name has one |
| ServerUrl.ProtocolRelativeName | invenio_edugain/build_config/utils.py:41-43 | `//host` gives an absolute URL for the trimmed host, and this case is checked before the `/` case |
| ServerUrl.BareHostName | invenio_edugain/build_config/utils.py:62-64 | a name without a scheme that is not a path is used as it is, trimmed, for an absolute URL |
| ServerUrl.SchemeGiven | invenio_edugain/build_config/utils.py:48-61 | a name with a scheme is bound without it, with the leading `//` dropped when an authority was parsed, and built with the lower-case scheme |
| JsonMismatch.Compare | tests/build_config/test_pysaml2.py:24-78 | whatever the comparator returns for a subtree carries that subtree's path and is never an empty group or a bare key or length error |
| JsonMismatch.ExactTypesCompared | tests/build_config/test_pysaml2.py:30-33 | values of different exact types are a type mismatch: `True` against `1`, which Python's `==` calls equal, and a tuple against a list with the same items |
| JsonMismatch.GroupOf | tests/build_config/test_pysaml2.py:53-54 | a group is returned exactly when errors were collected |
| JsonMismatch.KeyErrorsEmptyIff | tests/build_config/test_pysaml2.py:38-44 | there is no key error exactly when both dictionaries have the same keys |
| JsonMismatch.ValueMismatchesNoneIff | tests/build_config/test_pysaml2.py:45-52 | the common keys yield no mismatch exactly when their values are equal and judgeable |
| JsonMismatch.ItemMismatchesNoneIff | tests/build_config/test_pysaml2.py:63-66 | the paired items yield no mismatch exactly when they are equal and judgeable |
| JsonMismatch.DictNoneIff | tests/build_config/test_pysaml2.py:36-54 | two dictionaries compare clean exactly when they are equal and judgeable |
| JsonMismatch.SequenceNoneIff | tests/build_config/test_pysaml2.py:55-68 | two sequences of the same type compare clean exactly when they are equal (length included) and judgeable |
| JsonMismatch.CompareNoneIff | tests/build_config/test_pysaml2.py:24-78 | the comparator returns `None` exactly when the generated tree equals the expected one, with the same Python types throughout, and holds no value of an unknown type |
| JsonMismatch.CollectKeyErrors | tests/build_config/test_pysaml2.py:41-44 | the `if extra_keys` and `if missing_keys` appends yield the key errors, extra first |
| JsonMismatch.CompareValues | tests/build_config/test_pysaml2.py:45-52 | the loop over the sorted common keys yields `ValueMismatches` |
| JsonMismatch.CompareItems | tests/build_config/test_pysaml2.py:63-66 | the loop over the zipped items yields `ItemMismatches` |
| JsonMismatch.CompareDicts | tests/build_config/test_pysaml2.py:36-54 | the dictionary branch yields `DictMismatch` |
| JsonMismatch.CompareSequences | tests/build_config/test_pysaml2.py:55-68 | the sequence branch yields `SequenceMismatch` |
| JsonMismatch.FindJsonMismatches | tests/build_config/test_pysaml2.py:24-78 | the list-appending comparator yields `Compare` |
| JsonMismatch.TestBuildConfig | tests/build_config/test_pysaml2.py:92-94 | the test raises nothing exactly when the built configuration equals the expected one, and anything it raises is a reportable mismatch at the root |
| StringOrder.SortedSet | invenio_edugain/ingest.py:31 | `sorted` of a set of strings: each element once, in strictly ascending order |
| StringOrder.FilterKeepsSorted | invenio_edugain/cli.py:105-118 | keeping some of an ascending sequence of ids leaves it ascending |
| Text.RStripChar | invenio_edugain/build_config/shibboleth.py:81 | `rstrip("/")` removes exactly the trailing run of the character |
| Text.StripChar | invenio_edugain/build_config/utils.py:67 | `strip("/")` is empty exactly when the string holds nothing but the character |
| Text.BeforeFirst | invenio_edugain/utils.py:223 | `split("@")[0]` is the longest prefix without `@` |
| Text.Strip | invenio_edugain/utils.py:219 | `strip()` is a contiguous part of the string that neither starts nor ends with whitespace, and everything cut before and after it is whitespace |

## Left out

- Network and cryptography in `load_mdstore` are not modelled. This covers the certificate
  download, PEM parsing, the temporary file and `mds.load`. The downloaded certificate's digest is
  a parameter, and the result says where the store would be loaded from.
- pysaml2 internals are parameters or plain values: `parse_authn_request_response`, signature
  checking, `MetadataStore`, `mdui_uiinfo`, `name` and `prepare_for_authenticate`. A response
  pysaml2 cannot parse is `None`.
- The database session, ORM queries and commits are not modelled; the table is a map from id to
  row. Row order from a query is not modelled: `MetaDataFlaskSQL.Load` and
  `MetadataLoader.Load` visit the rows in an arbitrary order, and the result does not depend on it.
- Models.NewRow: `discoverable` is not declared in models.py. The model gives new rows
  `discoverable = true`, the default the schema documents.
- Models.NewRow: the NOT NULL constraints on `displayname` and `logo_url`
  (invenio_edugain/models.py:26-28) are not modelled. Ingestion creates rows without them, and the
  model records both as `None` rather than as a failed commit.
- Flask request handling, aborts, rendering, `login_user`, redirects, CSP decoration and blueprint
  wiring are not modelled. An abort is an error value.
- The `acs` view, the scheduler jobs and tasks, the `ingest` CLI command's glue and printing, and
  all printing of `search` and `manage` are not modelled. `manage`'s result is the exit status it
  would produce, with the printed count as the updated-id set.
- `search` also writes `match_info` into the loader's `idp_data` dictionary. This mutates the
  dictionary it aliases; the model returns the match information alongside the row instead.
- Python's cross-type equality (`1 == 1.0 == True`) is not modelled for the stored settings;
  settings compare structurally. Floats are reals, so NaN is not modelled.
- Subclasses of `dict`, `list`, `tuple` and `str` are not represented. The test comparator
  dispatches with `isinstance` and would compare such a value structurally; the model has only
  the exact types, and any other value is `JOther`, which the comparator reports as unexpected.
- Dictionary key order of JSON values is not modelled (`map`); language dictionaries whose order
  matters are sequences of pairs.
- `get_field_type`'s `assert` on string annotations is not modelled: field types are given.
- `ABSENT`, `field_for`, `Email`, `FilePath`, `LangDict`, `LogoList`, `ValueExceptionTuple` and
  `EdugainConfigCoreExceptionGroup` come from `build_config/utils` definitions that are not part of
  this model. `field_for(key)` is taken to give an `ABSENT` default with `flask_config_key`
  metadata, and type coercion (including e-mail normalisation) is a parameter.
- `url_map.bind`/`build` and `handle_url_build_error` are one `build` parameter.
  `urisplit`/`uricompose` are the `split` parameter, and `re.escape` is the `escape` parameter.
- `app.config` values are `Option<string>`. `app.config["SERVER_NAME"]` is read as `None` when
  unset, since Flask always defines that key.
- The keyword arguments of `build_shibboleth_eds_config` are any JSON map; their declared types
  are not enforced.
- The fixed entries of `build_pysaml2_config` and `build_sp` (timeouts, algorithms, attribute
  lists, flags) are built but have no lemma of their own beyond the dictionary itself.
- `get_xmlsec_binary` is a parameter: the path it finds.
- ServerUrl.BindingFor: trailing-slash trimming is stated for the server name only. The bound
  scheme `https` is left to the `build` parameter.
- Views.GroupNames: it takes the names already flattened in relevance order (`NameCandidates`),
  instead of appending inside the two nested loops of `disco_feed`.
- JsonMismatch.TestBuildConfig: the test's construction of `Pysaml2ConfigCore` from its sample Flask
  configuration and the sample files are not modelled. The built and expected configurations are
  parameters.
- Exception notes (`add_note`), `__repr__` and the message formatting of paths are not modelled.
  Errors carry the data their messages are made from.
