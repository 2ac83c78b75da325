/**
  The census residency check of the Badalona authorization handler: four
  declared attributes, their field rules, a memoised registry request guarded
  by the attributes' presence, the registry check that reads its answer, and
  the small mappings around them (metadata, document-type options, registry
  codes, the unique-id pre-image, the date of birth taken from form params).
*/
module CensusAuthorization {

  import opened Wrappers
  import opened RubyStrings

  /** A date as its (year, month, day) components. */
  datatype Date = Date(year: int, month: int, day: int)

  /**
    The handler's four attributes; nil is None. A Symbol attribute is kept as
    the symbol's name.
  */
  datatype Claim = Claim(
    dateOfBirth: Option<Date>,
    postalCode: Option<string>,
    documentType: Option<string>,
    documentNumber: Option<string>)

  datatype Attribute = DateOfBirth | PostalCode | DocumentType | DocumentNumber

  /**
    The error types the validations add: presence (`:blank`), format
    (`:invalid`), inclusion (`:inclusion`) and the registry's rejection,
    whose localised message is left opaque.
  */
  datatype ErrorKind = Blank | Invalid | Inclusion | InvalidDocument

  datatype FieldError = FieldError(attribute: Attribute, kind: ErrorKind)

  /** A parsed JSON value; a number is kept as its text. */
  datatype Json =
    | JNull
    | JBool(b: bool)
    | JNumber(text: string)
    | JString(s: string)
    | JArray(items: seq<Json>)
    | JObject(members: map<string, Json>)

  /** The registry's answer: a parsed JSON object. */
  type Payload = map<string, Json>

  /** The four-key body sent to the registry. */
  datatype RequestBody = RequestBody(
    datnaix: Option<Date>,
    cdpost: Option<string>,
    tipdoc: Option<string>,
    docident: Option<string>)

  /** The values `document_type` may take, in the order the form offers them. */
  const DocumentTypes: seq<string> := ["DNI", "NIE", "PASS"]

  // ---------------------------------------------------------------------
  // Blankness and formats of the attributes

  /** `blank?` of a String attribute: nil, empty or whitespace only. */
  predicate StringAttrBlank(v: Option<string>) {
    v.None? || BlankString(v.value)
  }

  /** `blank?` of a Symbol attribute: nil or the empty symbol. */
  predicate SymbolAttrBlank(v: Option<string>) {
    v.None? || v.value == []
  }

  /** `to_s`, which the format validator applies first: nil becomes "". */
  function ToS(v: Option<string>): string {
    if v.None? then "" else v.value
  }

  /** A character of the class [A-z0-9]: the range A-z is code points 65 to 122. */
  predicate DocumentNumberChar(c: char) {
    ('A' <= c <= 'z') || ('0' <= c <= '9')
  }

  predicate IsAsciiLetter(c: char) {
    ('A' <= c <= 'Z') || ('a' <= c <= 'z')
  }

  /** The range A-z holds the letters, the digits class the digits, and six punctuation marks besides. */
  lemma DocumentNumberCharIff(c: char)
    ensures DocumentNumberChar(c) <==> IsAsciiLetter(c) || IsDigit(c) || c in "[\\]^_`"
  {
  }

  predicate DocumentTypeIncluded(v: Option<string>) {
    v.Some? && v.value in DocumentTypes
  }

  // ---------------------------------------------------------------------
  // The declared validations, one function per validated attribute

  /** The presence rule on the date of birth (`date_of_birth`). */
  function DateOfBirthErrors(v: Option<Date>): (r: seq<FieldError>)
    ensures r == [] <==> v.Some?
    ensures v.None? ==> r == [FieldError(DateOfBirth, Blank)]
  {
    if v.None? then [FieldError(DateOfBirth, Blank)] else []
  }

  /** The presence rule and then the digits-only format rule on the postal code, each adding at most one error. */
  function PostalCodeErrors(v: Option<string>): (r: seq<FieldError>)
    ensures forall e :: e in r ==> e.attribute == PostalCode && e.kind in {Blank, Invalid}
    ensures (FieldError(PostalCode, Blank) in r)
              <==> (v.None? || forall i :: 0 <= i < |v.value| ==> IsSpace(v.value[i]))
    ensures (FieldError(PostalCode, Invalid) in r)
              <==> (exists i :: 0 <= i < |ToS(v)| && !IsDigit(ToS(v)[i]))
    ensures r == [] <==> v.Some? && v.value != [] && forall i :: 0 <= i < |v.value| ==> IsDigit(v.value[i])
    ensures |r| == (if StringAttrBlank(v) then 1 else 0) + (if AllDigits(ToS(v)) then 0 else 1)
    ensures |r| == 2 ==> r == [FieldError(PostalCode, Blank), FieldError(PostalCode, Invalid)]
  {
    (if StringAttrBlank(v) then [FieldError(PostalCode, Blank)] else [])
    + (if !MatchesClassStar(ToS(v), IsDigit) then [FieldError(PostalCode, Invalid)] else [])
  }

  /** The rule that the document type is one of DNI, NIE and PASS, then its presence rule. */
  function DocumentTypeErrors(v: Option<string>): (r: seq<FieldError>)
    ensures forall e :: e in r ==> e.attribute == DocumentType && e.kind in {Inclusion, Blank}
    ensures FieldError(DocumentType, Inclusion) in r <==> !(v.Some? && v.value in DocumentTypes)
    ensures FieldError(DocumentType, Blank) in r <==> v.None? || v.value == ""
    ensures r == [] <==> v == Some("DNI") || v == Some("NIE") || v == Some("PASS")
    ensures |r| == (if DocumentTypeIncluded(v) then 0 else 1) + (if SymbolAttrBlank(v) then 1 else 0)
    ensures |r| == 2 ==> r == [FieldError(DocumentType, Inclusion), FieldError(DocumentType, Blank)]
  {
    (if !DocumentTypeIncluded(v) then [FieldError(DocumentType, Inclusion)] else [])
    + (if SymbolAttrBlank(v) then [FieldError(DocumentType, Blank)] else [])
  }

  /** The format rule (characters in A to z or 0 to 9) and then the presence rule on the document number. */
  function DocumentNumberErrors(v: Option<string>): (r: seq<FieldError>)
    ensures forall e :: e in r ==> e.attribute == DocumentNumber && e.kind in {Invalid, Blank}
    ensures (FieldError(DocumentNumber, Invalid) in r)
              <==> (exists i :: 0 <= i < |ToS(v)| && !(('A' <= ToS(v)[i] <= 'z') || ('0' <= ToS(v)[i] <= '9')))
    ensures (FieldError(DocumentNumber, Blank) in r)
              <==> (v.None? || forall i :: 0 <= i < |v.value| ==> IsSpace(v.value[i]))
    ensures r == [] <==> v.Some? && v.value != []
                         && forall i :: 0 <= i < |v.value| ==> ('A' <= v.value[i] <= 'z') || ('0' <= v.value[i] <= '9')
    ensures |r| == (if forall i :: 0 <= i < |ToS(v)| ==> DocumentNumberChar(ToS(v)[i]) then 0 else 1)
                   + (if StringAttrBlank(v) then 1 else 0)
    ensures |r| == 2 ==> r == [FieldError(DocumentNumber, Invalid), FieldError(DocumentNumber, Blank)]
  {
    (if !MatchesClassStar(ToS(v), DocumentNumberChar) then [FieldError(DocumentNumber, Invalid)] else [])
    + (if StringAttrBlank(v) then [FieldError(DocumentNumber, Blank)] else [])
  }

  /**
    The errors of the four declared validations, in declaration order. Every
    rule runs, and since each rule reports on its own attribute only, the
    errors on one attribute depend on that attribute alone.
  */
  function FieldErrors(c: Claim): (r: seq<FieldError>)
    ensures forall e :: e in r <==> (e in DateOfBirthErrors(c.dateOfBirth) || e in PostalCodeErrors(c.postalCode)
                                      || e in DocumentTypeErrors(c.documentType) || e in DocumentNumberErrors(c.documentNumber))
    ensures forall e :: e in r ==> e.kind != InvalidDocument
    ensures r == [] <==> DateOfBirthErrors(c.dateOfBirth) == [] && PostalCodeErrors(c.postalCode) == []
                         && DocumentTypeErrors(c.documentType) == [] && DocumentNumberErrors(c.documentNumber) == []
    ensures |r| == |DateOfBirthErrors(c.dateOfBirth)| + |PostalCodeErrors(c.postalCode)|
                   + |DocumentTypeErrors(c.documentType)| + |DocumentNumberErrors(c.documentNumber)|
  {
    DateOfBirthErrors(c.dateOfBirth) + PostalCodeErrors(c.postalCode)
    + DocumentTypeErrors(c.documentType) + DocumentNumberErrors(c.documentNumber)
  }

  /** The rule for document numbers admits "12_[Z": underscore and bracket lie inside A-z. */
  lemma DocumentNumberAdmitsPunctuation()
    ensures DocumentNumberErrors(Some("12_[Z")) == []
    ensures DocumentNumberErrors(Some("12-3")) == [FieldError(DocumentNumber, Invalid)]
  {
    assert !StringAttrBlank(Some("12_[Z")) by { assert !IsSpace("12_[Z"[0]); }
    assert !StringAttrBlank(Some("12-3")) by { assert !IsSpace("12-3"[0]); }
    assert !DocumentNumberChar("12-3"[2]);
  }

  // ---------------------------------------------------------------------
  // The registry request and its memoisation

  /**
    `response` consults the registry only when none of the four attributes is
    blank: the date is given, the symbol is not empty, and each string holds a
    character that is not whitespace.
  */
  predicate RegistryEligible(c: Claim): (b: bool)
    ensures b <==> && c.dateOfBirth.Some?
                   && c.postalCode.Some? && (exists i :: 0 <= i < |c.postalCode.value| && !IsSpace(c.postalCode.value[i]))
                   && c.documentType.Some? && |c.documentType.value| > 0
                   && c.documentNumber.Some? && (exists i :: 0 <= i < |c.documentNumber.value| && !IsSpace(c.documentNumber.value[i]))
  {
    c.dateOfBirth.Some? && !StringAttrBlank(c.postalCode)
    && !SymbolAttrBlank(c.documentType) && !StringAttrBlank(c.documentNumber)
  }

  /** The registry is consulted exactly when no presence error is reported, whatever the format errors. */
  lemma RegistryEligibleIffNoPresenceError(c: Claim)
    ensures RegistryEligible(c) <==> forall e :: e in FieldErrors(c) ==> e.kind != Blank
  {
  }

  /**
    `request_body`: the attributes under the registry's four keys; reading the
    keys back gives the attributes, so the raw symbol is sent, not its code.
  */
  function RequestFor(c: Claim): (b: RequestBody)
    ensures Claim(b.datnaix, b.cdpost, b.tipdoc, b.docident) == c
  {
    RequestBody(c.dateOfBirth, c.postalCode, c.documentType, c.documentNumber)
  }

  /** Distinct attributes give distinct requests. */
  lemma RequestBodyDeterminesClaim(c1: Claim, c2: Claim)
    ensures RequestFor(c1) == RequestFor(c2) <==> c1 == c2
  {
  }

  /**
    What `response` returns for attributes c while `@response` holds cache
    (None: undefined): nil for a blank claim, otherwise what the cache holds
    once the call is over.
  */
  function ResponseValue(c: Claim, cache: Option<Payload>, census: RequestBody -> Payload): (r: Option<Payload>)
    ensures r == if RegistryEligible(c) then CacheAfter(c, cache, census) else None
    ensures RegistryEligible(c) ==> r.Some?
  {
    if !RegistryEligible(c) then None
    else if cache.Some? then cache
    else Some(census(RequestFor(c)))
  }

  /**
    `@response` after that call: a defined cache is never overwritten, and an
    undefined one is filled with the registry's answer to this claim's request
    exactly when the claim is eligible.
  */
  function CacheAfter(c: Claim, cache: Option<Payload>, census: RequestBody -> Payload): (r: Option<Payload>)
    ensures cache.Some? ==> r == cache
    ensures r.Some? <==> cache.Some? || RegistryEligible(c)
    ensures r != cache ==> r == Some(census(RequestFor(c)))
  {
    if RegistryEligible(c) && cache.None? then Some(census(RequestFor(c))) else cache
  }

  /** The registry requests that call issues: one exactly when it fills an undefined cache. */
  function FetchesBy(c: Claim, cache: Option<Payload>, census: RequestBody -> Payload): (n: nat)
    ensures n <= 1
    ensures n == 1 <==> cache.None? && CacheAfter(c, cache, census).Some?
  {
    if RegistryEligible(c) && cache.None? then 1 else 0
  }

  /** With a blank attribute nothing is fetched or cached and the answer is nil. */
  lemma ResponseSkipsBlankClaims(c: Claim, cache: Option<Payload>, census: RequestBody -> Payload)
    requires !RegistryEligible(c)
    ensures ResponseValue(c, cache, census).None?
    ensures CacheAfter(c, cache, census) == cache && FetchesBy(c, cache, census) == 0
  {
  }

  /** A second call returns the first call's answer, fetches nothing and leaves the cache as it was. */
  lemma ResponseMemoised(c: Claim, cache: Option<Payload>, census: RequestBody -> Payload)
    ensures var cache' := CacheAfter(c, cache, census);
      && ResponseValue(c, cache', census) == ResponseValue(c, cache, census)
      && CacheAfter(c, cache', census) == cache'
      && FetchesBy(c, cache', census) == 0
      && FetchesBy(c, cache, census) <= 1
  {
  }

  /** The cached answer is not tied to the attributes it was fetched for: later attributes get it too. */
  lemma CacheOutlivesAttributeChanges(c1: Claim, c2: Claim, cache: Option<Payload>, census: RequestBody -> Payload)
    requires RegistryEligible(c1) && RegistryEligible(c2)
    ensures ResponseValue(c2, CacheAfter(c1, cache, census), census) == ResponseValue(c1, cache, census)
  {
  }

  /** A claim whose postal code fails its format is still sent to the registry. */
  lemma FormatNotConsultedBeforeFetch(census: RequestBody -> Payload)
    ensures var c := Claim(Some(Date(1980, 1, 2)), Some("08-91"), Some("XYZ"), Some("12 3"));
      && PostalCodeErrors(c.postalCode) != [] && DocumentTypeErrors(c.documentType) != []
      && DocumentNumberErrors(c.documentNumber) != []
      && FetchesBy(c, None, census) == 1
  {
    var c := Claim(Some(Date(1980, 1, 2)), Some("08-91"), Some("XYZ"), Some("12 3"));
    assert !IsDigit(ToS(c.postalCode)[2]);
    assert !DocumentNumberChar(ToS(c.documentNumber)[2]);
    assert !IsSpace(c.postalCode.value[0]) && !IsSpace(c.documentNumber.value[0]);
    assert RegistryEligible(c);
  }

  /**
    Rule errors do not hide the registry's verdict: an eligible claim the
    registry rejects gets its rule errors followed by the registry error,
    whatever rules it fails (`FormatNotConsultedBeforeFetch` gives a claim
    failing three of them that is still eligible).
  */
  lemma RejectionReportedBesideRuleErrors(c: Claim, census: RequestBody -> Payload)
    requires RegistryEligible(c)
    requires census(RequestFor(c)) != map[] && !StatusOk(census(RequestFor(c)))
    ensures ValidationErrors(c, None, census) == FieldErrors(c) + [FieldError(DocumentNumber, InvalidDocument)]
  {
  }

  // ---------------------------------------------------------------------
  // Reading the registry's answer

  /** `response.blank?`: nil or an empty object. */
  predicate ResponseBlank(r: Option<Payload>) {
    r.None? || r.value == map[]
  }

  /** `response["status"] == "OK"`; a missing key reads as nil. */
  predicate StatusOk(p: Payload) {
    "status" in p && p["status"] == JString("OK")
  }

  /** The errors `document_type_valid` adds for the answer `response` gave. */
  function RegistryErrors(resp: Option<Payload>): (r: seq<FieldError>)
    ensures |r| <= 1
    ensures r != [] <==> resp.Some? && resp.value != map[] && !("status" in resp.value && resp.value["status"] == JString("OK"))
    ensures forall e :: e in r ==> e == FieldError(DocumentNumber, InvalidDocument)
  {
    if ResponseBlank(resp) then []
    else if StatusOk(resp.value) then []
    else [FieldError(DocumentNumber, InvalidDocument)]
  }

  /**
    A whole validation pass: the declared rules, then `document_type_valid`.
    The registry adds at most one error beyond the rules' own, and only on the
    document number.
  */
  function ValidationErrors(c: Claim, cache: Option<Payload>, census: RequestBody -> Payload): (r: seq<FieldError>)
    ensures |FieldErrors(c)| <= |r| <= |FieldErrors(c)| + 1 && r[..|FieldErrors(c)|] == FieldErrors(c)
    ensures forall e :: e in r && e !in FieldErrors(c) ==> e == FieldError(DocumentNumber, InvalidDocument)
    ensures r == [] <==> FieldErrors(c) == [] && RegistryErrors(ResponseValue(c, cache, census)) == []
    ensures |r| == |FieldErrors(c)| + |RegistryErrors(ResponseValue(c, cache, census))|
  {
    FieldErrors(c) + RegistryErrors(ResponseValue(c, cache, census))
  }

  /** With a blank attribute the pass reports the rule errors only and the registry is not asked. */
  lemma BlankClaimSkipsRegistry(c: Claim, cache: Option<Payload>, census: RequestBody -> Payload)
    requires !RegistryEligible(c)
    ensures ValidationErrors(c, cache, census) == FieldErrors(c) != []
    ensures FetchesBy(c, cache, census) == 0
  {
  }

  /** A well-formed claim that the registry confirms passes with no error. */
  lemma ConfirmedClaimIsValid(c: Claim, cache: Option<Payload>, census: RequestBody -> Payload)
    requires FieldErrors(c) == []
    requires cache.None? && StatusOk(census(RequestFor(c)))
    ensures ValidationErrors(c, cache, census) == []
    ensures FetchesBy(c, cache, census) == 1
  {
  }

  /** A well-formed claim that the registry rejects fails with exactly one document-number error. */
  lemma RejectedClaimHasOneError(c: Claim, cache: Option<Payload>, census: RequestBody -> Payload)
    requires FieldErrors(c) == []
    requires cache.None? && census(RequestFor(c)) == map["status" := JString("REJECTED")]
    ensures ValidationErrors(c, cache, census) == [FieldError(DocumentNumber, InvalidDocument)]
  {
  }

  /** Validating again reuses the cached answer: same errors, no further request. */
  lemma RevalidationIsStable(c: Claim, cache: Option<Payload>, census: RequestBody -> Payload)
    ensures ValidationErrors(c, CacheAfter(c, cache, census), census) == ValidationErrors(c, cache, census)
    ensures FetchesBy(c, CacheAfter(c, cache, census), census) == 0
  {
  }

  // ---------------------------------------------------------------------
  // The small mappings

  /** A metadata key: Ruby keeps symbol keys and string keys apart. */
  datatype MetaKey = SymbolKey(name: string) | StringKey(name: string)

  const PostalCodeKey: MetaKey := SymbolKey("postal_code")

  /** `metadata`: the base metadata merged with `postal_code:`. */
  function Metadata(base: map<MetaKey, Option<string>>, postalCode: Option<string>): (m: map<MetaKey, Option<string>>)
    ensures m.Keys == base.Keys + {PostalCodeKey}
    ensures m[PostalCodeKey] == postalCode
    ensures forall k :: k in base && k != PostalCodeKey ==> m[k] == base[k]
  {
    base[PostalCodeKey := postalCode]
  }

  /** `census_document_types`: each allowed value paired with its label, in the order DNI, NIE, PASS. */
  function CensusDocumentTypes(labelOf: string -> string): (r: seq<(string, string)>)
    ensures |r| == 3 && r[0].1 == "DNI" && r[1].1 == "NIE" && r[2].1 == "PASS"
    ensures forall i :: 0 <= i < |r| ==> r[i].0 == labelOf(r[i].1)
  {
    seq(|DocumentTypes|, i requires 0 <= i < |DocumentTypes| => (labelOf(DocumentTypes[i]), DocumentTypes[i]))
  }

  /** The form offers exactly the values the inclusion rule accepts. */
  lemma OfferedTypesAreAccepted(labelOf: string -> string, t: string)
    ensures (exists i :: 0 <= i < |CensusDocumentTypes(labelOf)| && CensusDocumentTypes(labelOf)[i].1 == t)
            <==> DocumentTypeErrors(Some(t)) == []
  {
    var r := CensusDocumentTypes(labelOf);
    if t == "DNI" { assert r[0].1 == t; }
    else if t == "NIE" { assert r[1].1 == t; }
    else if t == "PASS" { assert r[2].1 == t; }
  }

  /** `sanitized_document_type`: the registry's two-digit code of a document type. */
  function SanitizedDocumentType(t: Option<string>): (code: Option<string>)
    ensures code.Some? <==> DocumentTypeIncluded(t)
    ensures t == Some("DNI") ==> code == Some("01")
    ensures t == Some("PASS") ==> code == Some("02")
    ensures t == Some("NIE") ==> code == Some("03")
  {
    match t
    case Some("DNI") => Some("01")
    case Some("PASS") => Some("02")
    case Some("NIE") => Some("03")
    case _ => None
  }

  /** Distinct accepted types get distinct codes. */
  lemma SanitizedDocumentTypeInjective(t1: Option<string>, t2: Option<string>)
    requires SanitizedDocumentType(t1).Some?
    ensures SanitizedDocumentType(t1) == SanitizedDocumentType(t2) <==> t1 == t2
  {
  }

  /** The string `unique_id` digests: the document number, a dash, the secret. */
  function UniqueIdPreimage(documentNumber: Option<string>, secret: string): (p: string)
    ensures var n := ToS(documentNumber);
      && |p| == |n| + 1 + |secret|
      && p[..|n|] == n && p[|n|] == '-' && p[|n| + 1..] == secret
  {
    ToS(documentNumber) + "-" + secret
  }

  /** `unique_id`: the digest, left uninterpreted, of the pre-image. */
  function UniqueId(documentNumber: Option<string>, secret: string, digest: string -> string): string {
    digest(UniqueIdPreimage(documentNumber, secret))
  }

  /** Document numbers that read alike (nil and "" included) get one identifier under one secret. */
  lemma UniqueIdDeterministic(a: Option<string>, b: Option<string>, secret: string, digest: string -> string)
    ensures ToS(a) == ToS(b) ==> UniqueId(a, secret, digest) == UniqueId(b, secret, digest)
  {
  }

  /**
    If the digest were injective, two document numbers would get the same
    identifier under one secret exactly when they read alike. MD5 maps
    unbounded strings to 32 hex characters, so it is not injective: for the
    real digest only the "if" half, `UniqueIdDeterministic`, holds.
  */
  lemma UniqueIdSeparatesDocumentNumbers(a: Option<string>, b: Option<string>, secret: string, digest: string -> string)
    requires forall x, y :: digest(x) == digest(y) ==> x == y
    ensures UniqueId(a, secret, digest) == UniqueId(b, secret, digest) <==> ToS(a) == ToS(b)
  {
    UniqueIdPreimageInjective(a, b, secret);
  }

  /** Under one secret, the pre-image determines the document number (nil and "" read alike). */
  lemma UniqueIdPreimageInjective(a: Option<string>, b: Option<string>, secret: string)
    ensures UniqueIdPreimage(a, secret) == UniqueIdPreimage(b, secret) <==> ToS(a) == ToS(b)
  {
  }

  /** For one document number, distinct secrets give distinct pre-images. */
  lemma UniqueIdPreimageSecretDependence(n: Option<string>, s1: string, s2: string)
    ensures UniqueIdPreimage(n, s1) == UniqueIdPreimage(n, s2) <==> s1 == s2
  {
  }

  /** The dash does not separate unambiguously: two different pairs share a pre-image. */
  lemma UniqueIdPreimageAmbiguous()
    ensures UniqueIdPreimage(Some("a-b"), "c") == UniqueIdPreimage(Some("a"), "b-c")
    ensures UniqueIdPreimage(None, "s") == UniqueIdPreimage(Some(""), "s")
  {
  }

  // ---------------------------------------------------------------------
  // Dates

  const YearParam := "date_of_birth(1i)"
  const MonthParam := "date_of_birth(2i)"
  const DayParam := "date_of_birth(3i)"

  /** `params[key].to_i`, where a missing key is nil and `nil.to_i` is 0. */
  function ParamToI(params: map<string, string>, key: string): int {
    if key in params then ToI(params[key]) else 0
  }

  /**
    The date `from_params` assembles from the three date-select components.
    A date is made iff the year component is given; its year is that
    component read with `to_i`, and so are the month and day components,
    a missing one reading as 0.
  */
  function DateFromParams(params: map<string, string>): (d: Option<Date>)
    ensures d.Some? <==> YearParam in params
    ensures d.Some? ==> d.value.year == ToI(params[YearParam])
    ensures d.Some? && MonthParam !in params ==> d.value.month == 0
    ensures d.Some? && DayParam !in params ==> d.value.day == 0
    ensures d.Some? && MonthParam in params ==> d.value.month == ToI(params[MonthParam])
    ensures d.Some? && DayParam in params ==> d.value.day == ToI(params[DayParam])
  {
    if YearParam in params
    then Some(Date(ToI(params[YearParam]), ParamToI(params, MonthParam), ParamToI(params, DayParam)))
    else None
  }

  /** Components rendered with `to_s`, as a date select sends them, come back as the same date. */
  lemma DateFromParamsRoundTrip(d: Date, params: map<string, string>)
    requires YearParam in params && params[YearParam] == IntToS(d.year)
    requires MonthParam in params && params[MonthParam] == IntToS(d.month)
    requires DayParam in params && params[DayParam] == IntToS(d.day)
    ensures DateFromParams(params) == Some(d)
  {
    ToIPadInt(d.year, 0);
    ToIPadInt(d.month, 0);
    ToIPadInt(d.day, 0);
  }

  /** `strftime("%Y%m%d")`: the year padded to four digits (five with a minus sign), month and day to two. */
  function DateStamp(d: Date): (s: string)
    ensures |s| >= 8
    ensures d.year >= 0 && d.month >= 0 && d.day >= 0 ==> AllDigits(s)
  {
    PadInt(d.year, if d.year >= 0 then 4 else 5) + PadInt(d.month, 2) + PadInt(d.day, 2)
  }

  /** For four-digit years the stamp has eight characters whose fields read back as the date. */
  lemma {:induction false} DateStampRoundTrip(d: Date)
    requires 0 <= d.year <= 9999 && 0 <= d.month <= 99 && 0 <= d.day <= 99
    ensures var s := DateStamp(d);
      && |s| == 8
      && ToI(s[..4]) == d.year && ToI(s[4..6]) == d.month && ToI(s[6..]) == d.day
  {
    assert Pow10(4) == 10000 && Pow10(2) == 100;
    NatToSLength(d.year, 4);
    NatToSLength(d.month, 2);
    NatToSLength(d.day, 2);
    var y, m, dd := PadInt(d.year, 4), PadInt(d.month, 2), PadInt(d.day, 2);
    var s := y + m + dd;
    assert s == DateStamp(d);
    assert s[..4] == y && s[4..6] == m && s[6..] == dd;
    ToIPadInt(d.year, 4);
    ToIPadInt(d.month, 2);
    ToIPadInt(d.day, 2);
  }

  function StampOf(v: Option<Date>): Option<string> {
    if v.None? then None else Some(DateStamp(v.value))
  }

  // ---------------------------------------------------------------------
  // The handler object

  class CensusAuthorizationHandler {
    var dateOfBirth: Option<Date>
    var postalCode: Option<string>
    var documentType: Option<string>
    var documentNumber: Option<string>
    /** `@response`; None while the instance variable is undefined. */
    var cachedResponse: Option<Payload>
    /** `@sanitized_date_of_birth`. */
    var sanitizedDateOfBirth: Option<string>
    /** The registry requests this handler has issued. */
    var fetchCount: nat
    /** The `errors` collection, in the order errors were added. */
    var errors: seq<FieldError>
    /** The registry: the parsed answer it gives to a request body. */
    const census: RequestBody -> Payload

    /** At most one request is ever issued, and only the one that filled the cache. */
    ghost predicate Valid()
      reads this
    {
      fetchCount == if cachedResponse.Some? then 1 else 0
    }

    function Attributes(): Claim
      reads this
    {
      Claim(dateOfBirth, postalCode, documentType, documentNumber)
    }

    constructor (attributes: Claim, census: RequestBody -> Payload)
      ensures Valid() && Attributes() == attributes && this.census == census
      ensures cachedResponse.None? && sanitizedDateOfBirth.None? && fetchCount == 0 && errors == []
    {
      dateOfBirth := attributes.dateOfBirth;
      postalCode := attributes.postalCode;
      documentType := attributes.documentType;
      documentNumber := attributes.documentNumber;
      cachedResponse := None;
      sanitizedDateOfBirth := None;
      fetchCount := 0;
      errors := [];
      this.census := census;
    }

    /**
      `from_params`: the handler built from bound attributes, whose date of
      birth is replaced by the three date-select components when the year is given.
    */
    static method FromParams(bound: Claim, params: map<string, string>, census: RequestBody -> Payload)
      returns (h: CensusAuthorizationHandler)
      ensures fresh(h) && h.Valid() && h.census == census
      ensures h.Attributes() == if DateFromParams(params).Some? then bound.(dateOfBirth := DateFromParams(params)) else bound
      ensures h.cachedResponse.None? && h.sanitizedDateOfBirth.None? && h.fetchCount == 0 && h.errors == []
    {
      h := new CensusAuthorizationHandler(bound, census);
      var date := DateFromParams(params);
      if date.Some? {
        h.dateOfBirth := date;
      }
    }

    /** The attribute writers; neither cache is cleared. */
    method SetAttributes(c: Claim)
      modifies this`dateOfBirth, this`postalCode, this`documentType, this`documentNumber
      ensures Attributes() == c
    {
      dateOfBirth, postalCode, documentType, documentNumber := c.dateOfBirth, c.postalCode, c.documentType, c.documentNumber;
    }

    /** `response`: nil when an attribute is blank, else the cached answer, fetched on first use. */
    method Response() returns (r: Option<Payload>)
      requires Valid()
      modifies this`cachedResponse, this`fetchCount
      ensures Valid()
      ensures r == ResponseValue(old(Attributes()), old(cachedResponse), census)
      ensures cachedResponse == CacheAfter(old(Attributes()), old(cachedResponse), census)
      ensures fetchCount == old(fetchCount) + FetchesBy(old(Attributes()), old(cachedResponse), census)
      ensures !RegistryEligible(old(Attributes())) ==> r.None? && unchanged(this)
      ensures RegistryEligible(old(Attributes())) && old(cachedResponse).Some? ==> r == old(cachedResponse) && unchanged(this)
    {
      if !RegistryEligible(Attributes()) {
        return None;
      }
      if cachedResponse.Some? {
        return cachedResponse;
      }
      var answer := census(RequestFor(Attributes()));
      fetchCount := fetchCount + 1;
      cachedResponse := Some(answer);
      r := cachedResponse;
    }

    /** `document_type_valid`: adds one document-number error when the registry's answer is present but not OK. */
    method DocumentTypeValid()
      requires Valid()
      modifies this`errors, this`cachedResponse, this`fetchCount
      ensures Valid()
      ensures errors == old(errors) + RegistryErrors(ResponseValue(old(Attributes()), old(cachedResponse), census))
      ensures cachedResponse == CacheAfter(old(Attributes()), old(cachedResponse), census)
      ensures fetchCount == old(fetchCount) + FetchesBy(old(Attributes()), old(cachedResponse), census)
    {
      var first := Response();
      if ResponseBlank(first) {
        return;
      }
      var again := Response();
      if !StatusOk(again.value) {
        errors := errors + [FieldError(DocumentNumber, InvalidDocument)];
      }
    }

    /** `valid?`: replaces the errors by those of the declared validations, then runs the registry check. */
    method Validate() returns (valid: bool)
      requires Valid()
      modifies this`errors, this`cachedResponse, this`fetchCount
      ensures Valid()
      ensures errors == ValidationErrors(old(Attributes()), old(cachedResponse), census)
      ensures valid <==> errors == []
      ensures cachedResponse == CacheAfter(old(Attributes()), old(cachedResponse), census)
      ensures fetchCount == old(fetchCount) + FetchesBy(old(Attributes()), old(cachedResponse), census)
    {
      errors := FieldErrors(Attributes());
      DocumentTypeValid();
      valid := errors == [];
    }

    /** `sanitized_date_of_birth`: `||=` keeps the first stamp computed; nil is not kept. */
    method SanitizedDateOfBirth() returns (s: Option<string>)
      modifies this`sanitizedDateOfBirth
      ensures s == if old(sanitizedDateOfBirth).Some? then old(sanitizedDateOfBirth) else StampOf(dateOfBirth)
      ensures sanitizedDateOfBirth == s
    {
      if sanitizedDateOfBirth.None? {
        sanitizedDateOfBirth := StampOf(dateOfBirth);
      }
      s := sanitizedDateOfBirth;
    }
  }
}
