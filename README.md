# Census authorization handler, modelled in Dafny

This project models the census residency check of the Badalona Decidim
authorization handler (`app/services/census_authorization_handler.rb`).
A citizen gives a date of birth, a postal code, a document type and a
document number. The handler checks that these four attributes are present
and well formed, and asks the city's census registry to confirm the claim.
It then exposes a metadata record and a pseudonymous unique identifier.

Files:

- `wrappers.dfy`: the `Option` type that stands for Ruby's nil.
- `ruby_strings.dfy` (module `RubyStrings`): the Ruby and ActiveSupport
  string behaviour the handler depends on. This covers `String#blank?`
  (empty or only White_Space characters), anchored character-class
  expressions `\A[...]*\z`, `String#to_i`, `Integer#to_s`, and the
  zero-padded `%Y`/`%m`/`%d` conversions of `strftime`.
- `census_authorization_handler.dfy` (module `CensusAuthorization`):
  - the attributes as a `Claim` value;
  - one function per validated attribute;
  - the registry request and its memoisation, as pure functions of the
    attributes and the cache;
  - the registry check;
  - metadata, document-type options, registry codes, the unique-id
    pre-image and the date assembled from form params;
  - the class `CensusAuthorizationHandler`, with the four attributes,
    `@response`, `@sanitized_date_of_birth`, a registry-request counter
    and the `errors` list. Its invariant `Valid()` says that at most one
    request is ever made, and only the one that filled the cache.

How the model reads the Ruby:

- Presence means `blank?`:
  - a String attribute is blank when it is nil, empty or whitespace only;
  - a Symbol attribute is blank when it is nil or `:""`;
  - a Date attribute is blank only when it is nil.
- The format validator matches `value.to_s`, so a nil value passes the
  format rule. It still fails presence.
- The inclusion rule rejects nil.
- All rules run, and errors are collected in declaration order:
  - postal code: presence, then format;
  - document type: inclusion, then presence;
  - document number: format, then presence.
- The document-number class `[A-z0-9]` spans code points 65 to 122. It
  therefore also admits `[ \ ] ^ _` and the backtick. The model keeps this.
- `response` checks blankness before it looks at the cache. So once an
  answer is cached, it is returned even after the attributes change.
- `document_type_valid` calls `response` twice. The model makes both
  calls; the second one always hits the cache.
- `request_body` sends the raw document type symbol, not the two-digit
  registry code. `sanitized_document_type` and `sanitized_date_of_birth`
  are private and have no caller in this file. They are modelled all the same.

The code is looser than a strict residency check would be in several places;
the model follows the code:

- The registry is asked whenever the four attributes are non-blank, even
  when a format or inclusion rule fails (`FormatNotConsultedBeforeFetch`).
- There is no separate "registry unavailable" error. A transport or parse
  failure is an exception the code does not handle.
- A claim missing its document type also gets an inclusion error, not only
  a presence error.
- The identifier digest is MD5 over `document_number-secret`, not a keyed
  hash.
- Document numbers are not restricted to letters and digits.

## Model

| member | source | states |
|---|---|---|
| `RubyStrings.MatchesClassStar` | app/services/census_authorization_handler.rb:16-18 | an anchored `\A[cls]*\z` matches exactly when every character of the string is in the class |
| `CensusAuthorization.DateOfBirthErrors` | app/services/census_authorization_handler.rb:15 | the date of birth passes iff it is present; otherwise exactly one presence error |
| `CensusAuthorization.PostalCodeErrors` | app/services/census_authorization_handler.rb:16 | presence error iff nil or whitespace only; format error iff `to_s` holds a non-digit; passes iff non-empty and all digits '0'..'9'; each failing rule adds exactly one error, presence before format |
| `CensusAuthorization.DocumentTypeErrors` | app/services/census_authorization_handler.rb:17 | inclusion error iff the symbol is not DNI, NIE or PASS (nil included); presence error iff nil or empty; passes iff one of the three; each failing rule adds exactly one error, inclusion before presence |
| `CensusAuthorization.DocumentNumberErrors` | app/services/census_authorization_handler.rb:18 | format error iff some character is outside 'A'..'z' and '0'..'9'; presence error iff blank; passes iff non-empty and every character is in those ranges; each failing rule adds exactly one error, format before presence |
| `CensusAuthorization.DocumentNumberCharIff` | app/services/census_authorization_handler.rb:18 | the class `[A-z0-9]` is the ASCII letters, the digits and exactly the six marks `[ \ ] ^ _` and backtick |
| `CensusAuthorization.DocumentNumberAdmitsPunctuation` | app/services/census_authorization_handler.rb:18 | "12_[Z" passes the document-number rule; "12-3" gets exactly one format error |
| `CensusAuthorization.FieldErrors` | app/services/census_authorization_handler.rb:15-18 | the pass reports exactly the union of the four rules' errors, never a registry error, and is empty iff every rule passes; its length is the sum of the four rules' counts |
| `CensusAuthorization.RegistryEligibleIffNoPresenceError` | app/services/census_authorization_handler.rb:84-89 | the registry is consulted iff no presence error is reported; format and inclusion errors have no say |
| `CensusAuthorization.FormatNotConsultedBeforeFetch` | app/services/census_authorization_handler.rb:84-92 | a claim failing the postal-code, document-type and document-number formats still triggers a registry request |
| `CensusAuthorization.RequestFor` | app/services/census_authorization_handler.rb:100-107 | the four registry keys read back as the four attributes, unchanged; `tipdoc` is the raw symbol, not its registry code |
| `CensusAuthorization.RequestBodyDeterminesClaim` | app/services/census_authorization_handler.rb:100-107 | equal request bodies iff equal attributes |
| `CensusAuthorization.RegistryEligible` | app/services/census_authorization_handler.rb:85-88 | the registry may be asked iff the date is given, the symbol is non-empty, and postal code and document number each hold a non-whitespace character |
| `CensusAuthorization.ResponseValue` | app/services/census_authorization_handler.rb:84-97 | nil for a blank claim; otherwise always an answer, the one the cache holds after the call |
| `CensusAuthorization.CacheAfter` | app/services/census_authorization_handler.rb:84-97 | a defined cache is never overwritten; an undefined one is filled iff the claim is eligible, and then with the registry's answer to this claim's request |
| `CensusAuthorization.FetchesBy` | app/services/census_authorization_handler.rb:84-97 | a call makes at most one request, and one exactly when it fills an undefined cache |
| `CensusAuthorization.ResponseSkipsBlankClaims` | app/services/census_authorization_handler.rb:84-89 | with any attribute blank the answer is nil, no request is made and the cache is untouched |
| `CensusAuthorization.ResponseMemoised` | app/services/census_authorization_handler.rb:90-97 | a second call returns the first call's answer, makes no request and leaves the cache as it is; one call makes at most one request |
| `CensusAuthorization.CacheOutlivesAttributeChanges` | app/services/census_authorization_handler.rb:90 | once filled, the cache answers for whatever non-blank attributes the handler has later |
| `CensusAuthorization.RegistryErrors` | app/services/census_authorization_handler.rb:78-82 | at most one error, always on `document_number`; present iff the answer is a non-empty object whose `status` is not the string "OK" (a missing status counts as not OK) |
| `CensusAuthorization.BlankClaimSkipsRegistry` | app/services/census_authorization_handler.rb:78-89 | with a blank attribute validation reports only the rule errors, which are non-empty, and makes no request |
| `CensusAuthorization.ConfirmedClaimIsValid` | app/services/census_authorization_handler.rb:15-20 | a claim passing every rule, with the registry answering status OK, validates with no error after exactly one request |
| `CensusAuthorization.RejectedClaimHasOneError` | app/services/census_authorization_handler.rb:78-82 | a claim passing every rule, with the registry answering status REJECTED, gets exactly one `document_number` error |
| `CensusAuthorization.ValidationErrors` | app/services/census_authorization_handler.rb:15-20 | the rule errors come first, followed by exactly as many errors as the registry check gives (none or one `document_number` error); empty iff both parts are empty |
| `CensusAuthorization.RejectionReportedBesideRuleErrors` | app/services/census_authorization_handler.rb:15-20 | an eligible claim the registry rejects gets its rule errors, whatever they are, followed by the `document_number` error |
| `CensusAuthorization.RevalidationIsStable` | app/services/census_authorization_handler.rb:90 | validating again, with the cache the first pass left, gives the same errors and makes no request |
| `CensusAuthorization.Metadata` | app/services/census_authorization_handler.rb:45-47 | the keys are the base keys plus `:postal_code`; `:postal_code` maps to the postal code, overwriting any earlier value; every other key keeps its value |
| `CensusAuthorization.CensusDocumentTypes` | app/services/census_authorization_handler.rb:49-53 | three options in the order DNI, NIE, PASS, each paired with its own label |
| `CensusAuthorization.OfferedTypesAreAccepted` | app/services/census_authorization_handler.rb:49-53 | a value is offered by the form iff the document-type rule accepts it |
| `CensusAuthorization.SanitizedDocumentType` | app/services/census_authorization_handler.rb:63-72 | DNI gives "01", PASS gives "02", NIE gives "03"; there is a code iff the type is one of the three, so nil and any other symbol give nil |
| `CensusAuthorization.SanitizedDocumentTypeInjective` | app/services/census_authorization_handler.rb:63-72 | distinct accepted types get distinct codes |
| `CensusAuthorization.UniqueIdPreimage` | app/services/census_authorization_handler.rb:55-58 | the pre-image is the document number (nil read as ""), one dash, then the secret |
| `CensusAuthorization.UniqueIdPreimageInjective` | app/services/census_authorization_handler.rb:55-58 | under one secret, equal pre-images iff equal document numbers (nil and "" alike) |
| `CensusAuthorization.UniqueIdPreimageSecretDependence` | app/services/census_authorization_handler.rb:55-58 | for one document number, equal pre-images iff equal secrets |
| `CensusAuthorization.UniqueIdDeterministic` | app/services/census_authorization_handler.rb:55-58 | `unique_id` (the function `UniqueId`, the digest of `UniqueIdPreimage`): document numbers that read alike, nil and "" included, get the same identifier under one secret, for any digest |
| `CensusAuthorization.UniqueIdSeparatesDocumentNumbers` | app/services/census_authorization_handler.rb:55-58 | if the digest were injective, two document numbers would share an identifier under one secret iff they read alike; MD5 is not injective, so for the real program only the "if" half (`UniqueIdDeterministic`) holds |
| `CensusAuthorization.UniqueIdPreimageAmbiguous` | app/services/census_authorization_handler.rb:57 | ("a-b", "c") and ("a", "b-c") share a pre-image; nil and "" share one |
| `RubyStrings.ToI` | app/services/census_authorization_handler.rb:29-31 | a string starting with a digit reads as the value of its leading digit run (an all-digit string as its whole value); `-` or `+` followed by a digit run reads as that value negated or as is; a string starting with anything but whitespace, a sign or a digit reads as 0; a leading minus after whitespace gives at most 0 |
| `RubyStrings.ToISkipsLeadingSpace` | app/services/census_authorization_handler.rb:29-31 | leading ASCII whitespace does not change what `to_i` reads |
| `RubyStrings.ToIDigitPrefixExamples` | app/services/census_authorization_handler.rb:29-31 | "12abc" reads 12, "03" reads 3, "x1" and "" read 0 |
| `RubyStrings.ToISignAndSpaceExamples` | app/services/census_authorization_handler.rb:29-31 | " 7" and "+7" read 7, "-5" reads -5 |
| `RubyStrings.PadInt` | app/services/census_authorization_handler.rb:75 | exactly the larger of width and the length of n's digits plus any minus sign; digits of n when n is not negative, otherwise a minus followed by the digits of -n |
| `RubyStrings.IntToS` | app/services/census_authorization_handler.rb:29-31 | the shortest decimal rendering of a natural number, and `to_i` reads back every rendering |
| `RubyStrings.ToIPadInt` | app/services/census_authorization_handler.rb:29-31 | `to_i` reads back any integer rendered by `to_s` or by zero-padded formatting |
| `CensusAuthorization.DateFromParams` | app/services/census_authorization_handler.rb:27-35 | a date is assembled iff the year component is given; its year, month and day are the components read by `to_i`, a missing month or day reading as 0 |
| `CensusAuthorization.DateFromParamsRoundTrip` | app/services/census_authorization_handler.rb:27-35 | params holding the `to_s` of a date's three components give back that date |
| `CensusAuthorization.DateStamp` | app/services/census_authorization_handler.rb:75 | the `%Y%m%d` stamp has at least 8 characters, all digits when year, month and day are not negative |
| `CensusAuthorization.DateStampRoundTrip` | app/services/census_authorization_handler.rb:75 | for years 0..9999 and two-digit month and day the `%Y%m%d` stamp has 8 characters whose fields read back as year, month and day |
| `CensusAuthorization.CensusAuthorizationHandler.constructor` | app/services/census_authorization_handler.rb:10-13 | a new handler holds the given attributes, no cached answer, no request made and no errors |
| `CensusAuthorization.CensusAuthorizationHandler.FromParams` | app/services/census_authorization_handler.rb:22-38 | the bound attributes, with the date of birth replaced by the assembled date when a year is given; no cached answer, no kept stamp, no request and no errors |
| `CensusAuthorization.CensusAuthorizationHandler.SetAttributes` | app/services/census_authorization_handler.rb:10-13 | the attribute writers change the four attributes and leave both caches as they were |
| `CensusAuthorization.CensusAuthorizationHandler.Response` | app/services/census_authorization_handler.rb:84-98 | nil and nothing changed when an attribute is blank; otherwise the cached answer, or one new request whose answer is cached; at most one request over the handler's life |
| `CensusAuthorization.CensusAuthorizationHandler.DocumentTypeValid` | app/services/census_authorization_handler.rb:78-82 | appends the registry errors to the existing errors, which stay untouched |
| `CensusAuthorization.CensusAuthorizationHandler.Validate` | app/services/census_authorization_handler.rb:15-20 | the errors become the rule errors followed by the registry errors; the result is true iff there are none |
| `CensusAuthorization.CensusAuthorizationHandler.SanitizedDateOfBirth` | app/services/census_authorization_handler.rb:74-76 | returns the kept stamp if there is one, otherwise the stamp of the current date of birth (nil when absent), and keeps it |

## Left out

- The Faraday GET to the configured census URL, with its `text/json` header, is not modelled. The registry is the function `census` from request body to parsed answer, fixed when the handler is built.
- `to_json` and `JSON.parse` are not modelled. The request body is a four-field record, and the answer is a parsed JSON object (`map<string, Json>`). JSON numbers are kept as their text.
- A registry answer whose top level is not an object is not modelled. In the source, `null` and `false` parse to nil and false, which are blank, so `document_type_valid` returns with no error and the claim validates as it would on `{}`; `@response` stays defined, so no second request follows. An empty array is blank in the same way. A non-empty array, a number or `true` makes `response["status"]` raise. A non-blank string is indexed as a substring, which is never "OK", so the claim always gets the registry error.
- Network failures, timeouts and malformed JSON are not modelled. The source lets these exceptions propagate.
- `Digest::MD5` and `secret_key_base` are not modelled: the digest is an uninterpreted function and the secret a parameter. Because the digest is opaque, the secret dependence is proved for the pre-image only.
- I18n lookups are opaque: the option labels are a parameter, and the registry error is the kind `InvalidDocument`.
- The `Decidim::AuthorizationHandler` superclass is not modelled. Its metadata is taken as an input map. The attributes that `super` binds in `from_params` are taken as an input `Claim`.
- ActiveModel attribute coercion (a string becoming a Date or a Symbol) is not modelled. So are the validation DSL and the errors API apart from clearing and adding.
- Metadata values are nil or strings only.
- `Date.civil` is not modelled: it checks calendar validity, raises on impossible dates, and counts negative months and days from the end. The assembled date keeps the three `to_i` results as they are. `from_params` params are string-valued.
- `RubyStrings.ToI` does not read underscores between digits or a `0d` prefix, which Ruby's parser accepts.
- Encoding errors, raised when a pattern is matched against a string with invalid bytes, are not modelled.
