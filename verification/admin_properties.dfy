/**
 `POST /api/admin/properties` (app/api/admin/properties/route.ts): the
 shared-secret check, the normalisation of the submitted form fields, the
 required-field validation and the insert of one property row.

 The properties table is a sequence of rows; the insert's error, if any, is
 an input.
 */
module AdminProperties {
  import opened Common
  import opened Strings

  /** The submitted form; `None` is a field that was not sent. */
  datatype PropertyForm = PropertyForm(
    adminSecret: Option<string>,
    code: Option<string>,
    name: Option<string>,
    knowledgeText: Option<string>,
    languages: Option<string>,
    handoffEmail: Option<string>)

  /** The row inserted into `properties`. */
  datatype PropertyRow = PropertyRow(
    code: string, name: string, knowledgeText: string,
    languages: string, handoffEmail: Option<string>)

  datatype AdminResponse =
    | Unauthorized                   // 401
    | MissingFields                  // 400 "Missing required fields"
    | InsertFailed(message: string)  // 400 with the storage error's message
    | Created                        // 303 to /onboard?ok=1

  function Status(r: AdminResponse): int {
    match r
    case Unauthorized => 401
    case MissingFields => 400
    case InsertFailed(_) => 400
    case Created => 303
  }

  const SuccessLocation := "/onboard?ok=1"

  /** The submitted secret must equal a configured, non-empty `ADMIN_SECRET`. */
  predicate Authorized(adminSecretEnv: Option<string>, form: PropertyForm) {
    Truthy(adminSecretEnv) && OrElse(form.adminSecret, "") == adminSecretEnv.value
  }

  /** A stored property code: trimmed, with no lower-case ASCII letter. */
  predicate IsCode(code: string) {
    IsTrimmed(code) && forall i :: 0 <= i < |code| ==> !('a' <= code[i] <= 'z')
  }

  /** `code`: trimmed and upper-cased; empty exactly when blank. */
  function NormalizeCode(raw: Option<string>): (code: string)
    ensures IsCode(code)
    ensures code == [] <==> IsBlank(OrElse(raw, ""))
  {
    ToUpperKeepsTrimmed(Trim(OrElse(raw, "")));
    ToUpperHasNoLower(Trim(OrElse(raw, "")));
    ToUpper(Trim(OrElse(raw, "")))
  }

  /** `name` and `knowledge_text`: trimmed; empty exactly when blank. */
  function NormalizeText(raw: Option<string>): (text: string)
    ensures IsTrimmed(text)
    ensures text == [] <==> IsBlank(OrElse(raw, ""))
  {
    Trim(OrElse(raw, ""))
  }

  /** `languages`: "auto" replaces only an absent or empty field; any other
      value is trimmed, so a whitespace-only one becomes "". */
  function NormalizeLanguages(raw: Option<string>): (languages: string)
    ensures !Truthy(raw) ==> languages == "auto"
    ensures Truthy(raw) ==> IsTrimmed(languages) && (languages == [] <==> IsBlank(raw.value))
  {
    AutoIsTrimmed();
    Trim(OrElse(raw, "auto"))
  }

  /** The default "auto" survives trimming. */
  lemma AutoIsTrimmed()
    ensures Trim("auto") == "auto"
  {
    var auto := "auto";
    assert IsTrimmed(auto) by { assert auto[0] == 'a' && auto[|auto| - 1] == 'o'; }
    TrimOfTrimmed(auto);
  }

  /** `handoff_email`: trimmed, and null when that leaves nothing. */
  function NormalizeEmail(raw: Option<string>): (email: Option<string>)
    ensures email.None? <==> IsBlank(OrElse(raw, ""))
    ensures email.Some? ==> email.value != [] && IsTrimmed(email.value)
  {
    var e := Trim(OrElse(raw, ""));
    if e == [] then None else Some(e)
  }

  /** The field normalisation, field by field. */
  function NormalizeForm(form: PropertyForm): (row: PropertyRow)
    ensures IsNormalized(row)
    ensures HasRequiredFields(row) <==> FormComplete(form)
  {
    PropertyRow(
      NormalizeCode(form.code),
      NormalizeText(form.name),
      NormalizeText(form.knowledgeText),
      NormalizeLanguages(form.languages),
      NormalizeEmail(form.handoffEmail))
  }

  /** Code, name and knowledge text must be non-empty after normalisation. */
  /** What normalisation guarantees of every row it produces. */
  predicate IsNormalized(row: PropertyRow) {
    IsCode(row.code) && IsTrimmed(row.name) && IsTrimmed(row.knowledgeText)
  }

  /** None of the three required form fields is absent or blank. */
  predicate FormComplete(form: PropertyForm) {
    && !IsBlank(OrElse(form.code, ""))
    && !IsBlank(OrElse(form.name, ""))
    && !IsBlank(OrElse(form.knowledgeText, ""))
  }

  predicate HasRequiredFields(row: PropertyRow) {
    row.code != [] && row.name != [] && row.knowledgeText != []
  }

  datatype AdminResult = AdminResult(response: AdminResponse, properties: seq<PropertyRow>)

  /** `POST /api/admin/properties`. `insertError` is the message of the
      error the insert reports, if it reports one. */
  function CreateProperty(
    adminSecretEnv: Option<string>, form: PropertyForm,
    insertError: Option<string>, properties: seq<PropertyRow>): (r: AdminResult)
    // the secret is checked before any field
    ensures r.response == Unauthorized <==> !Authorized(adminSecretEnv, form)
    ensures r.response == MissingFields <==>
      Authorized(adminSecretEnv, form) && !HasRequiredFields(NormalizeForm(form))
    ensures r.response.InsertFailed? <==>
      Authorized(adminSecretEnv, form) && HasRequiredFields(NormalizeForm(form)) && insertError.Some?
    ensures r.response.InsertFailed? ==> r.response.message == insertError.value
    // only an accepted insert adds a row, and it adds exactly the normalised one
    ensures r.response == Created ==>
      HasRequiredFields(NormalizeForm(form)) && r.properties == properties + [NormalizeForm(form)]
    ensures r.response != Created ==> r.properties == properties
  {
    if !Authorized(adminSecretEnv, form) then AdminResult(Unauthorized, properties)
    else
      var row := NormalizeForm(form);
      if !HasRequiredFields(row) then AdminResult(MissingFields, properties)
      else if insertError.Some? then AdminResult(InsertFailed(insertError.value), properties)
      else AdminResult(Created, properties + [row])
  }

  /** The form that resubmits a stored row. */
  function FormOf(secret: string, row: PropertyRow): PropertyForm {
    PropertyForm(Some(secret), Some(row.code), Some(row.name), Some(row.knowledgeText),
                 Some(row.languages), row.handoffEmail)
  }

  /** Normalisation is idempotent: resubmitting a normalised row gives the
      same row back, except that a languages field trimmed to "" comes back
      as "auto". */
  lemma NormalizeIdempotent(secret: string, form: PropertyForm)
    ensures var row := NormalizeForm(form);
            var again := NormalizeForm(FormOf(secret, row));
            && again.code == row.code
            && again.name == row.name
            && again.knowledgeText == row.knowledgeText
            && again.languages == (if row.languages == "" then "auto" else row.languages)
            && again.handoffEmail == row.handoffEmail
  {
    var row := NormalizeForm(form);
    var again := NormalizeForm(FormOf(secret, row));
    assert again.code == row.code by { CodeIdempotent(form.code); }
    assert again.name == row.name by { TextIdempotent(form.name); }
    assert again.knowledgeText == row.knowledgeText by { TextIdempotent(form.knowledgeText); }
    assert again.languages == (if row.languages == "" then "auto" else row.languages) by {
      LanguagesIdempotent(form.languages);
    }
    assert again.handoffEmail == row.handoffEmail by { EmailIdempotent(form.handoffEmail); }
  }

  lemma EmailIdempotent(raw: Option<string>)
    ensures NormalizeEmail(NormalizeEmail(raw)) == NormalizeEmail(raw)
  {
    var e := NormalizeEmail(raw);
    if e.Some? {
      TrimOfTrimmed(e.value);
    }
  }

  lemma LanguagesIdempotent(raw: Option<string>)
    ensures var l := NormalizeLanguages(raw);
            NormalizeLanguages(Some(l)) == if l == "" then "auto" else l
  {
    var l := NormalizeLanguages(raw);
    if l != "" {
      TrimOfTrimmed(l);
    }
  }

  lemma CodeIdempotent(raw: Option<string>)
    ensures NormalizeCode(Some(NormalizeCode(raw))) == NormalizeCode(raw)
  {
    TrimUpperIdempotent(OrElse(raw, ""));
  }

  lemma TextIdempotent(raw: Option<string>)
    ensures NormalizeText(Some(NormalizeText(raw))) == NormalizeText(raw)
  {
    var t := NormalizeText(raw);
    assert OrElse(Some(t), "") == t;
    TrimOfTrimmed(t);
  }

  /** A whitespace-only languages field is stored as "", not "auto". */
  lemma BlankLanguagesNotDefaulted(form: PropertyForm)
    requires Truthy(form.languages) && IsBlank(form.languages.value)
    ensures NormalizeForm(form).languages == ""
  {
  }

  /** Without a configured secret nothing is ever inserted. */
  lemma UnsetSecretRejectsAll(form: PropertyForm, insertError: Option<string>, properties: seq<PropertyRow>)
    ensures CreateProperty(None, form, insertError, properties) == AdminResult(Unauthorized, properties)
    ensures CreateProperty(Some(""), form, insertError, properties) == AdminResult(Unauthorized, properties)
  {
  }

  /** What the route guarantees of every row it inserts: the required fields
      are non-empty, and the code is trimmed with no lower-case ASCII letter. */
  predicate ValidRow(row: PropertyRow) {
    HasRequiredFields(row) && IsCode(row.code)
  }

  /** Every inserted row is valid: a table of valid rows stays valid through
      any request. */
  lemma StoredRowsValid(
    adminSecretEnv: Option<string>, form: PropertyForm,
    insertError: Option<string>, properties: seq<PropertyRow>)
    requires forall i :: 0 <= i < |properties| ==> ValidRow(properties[i])
    ensures var r := CreateProperty(adminSecretEnv, form, insertError, properties);
            forall i :: 0 <= i < |r.properties| ==> ValidRow(r.properties[i])
  {
    var r := CreateProperty(adminSecretEnv, form, insertError, properties);
    if r.response == Created {
      NormalizedRowValid(form);
      AppendValid(properties, NormalizeForm(form));
    }
  }

  /** A normalised row with its required fields is valid. */
  lemma NormalizedRowValid(form: PropertyForm)
    requires HasRequiredFields(NormalizeForm(form))
    ensures ValidRow(NormalizeForm(form))
  {
  }

  lemma AppendValid(rows: seq<PropertyRow>, row: PropertyRow)
    requires forall i :: 0 <= i < |rows| ==> ValidRow(rows[i])
    requires ValidRow(row)
    ensures forall i :: 0 <= i < |rows + [row]| ==> ValidRow((rows + [row])[i])
  {
  }
}
