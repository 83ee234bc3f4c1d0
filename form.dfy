/**
 * The state updates of the invoice form: the record updates behind the text
 * inputs and the duration menu, the merge of a saved draft over the defaults,
 * the reset, and the required-field gate in front of the clipboard write.
 * Each handler is a function from the state before the event to the state
 * after it; the clock, the confirmation dialog and the outcome of the
 * clipboard write are parameters.
 */
module FormState {
  import opened Wrappers
  import opened Text
  import opened Calendar
  import opened Invoice

  /** The flags under the two required inputs. */
  datatype FieldErrors = FieldErrors(username: bool, outlineKey: bool)

  const NO_ERRORS: FieldErrors := FieldErrors(false, false)

  datatype NoticeKind = Success | Failure

  /** The banner shown after an action. */
  datatype Notification = Notification(kind: NoticeKind, message: string)

  const FILL_REQUIRED_MESSAGE: string := "Please fill in required fields."
  const COPIED_MESSAGE: string := "Invoice copied to clipboard!"
  const COPY_FAILED_MESSAGE: string := "Failed to copy. Please select text manually."
  const RESET_MESSAGE: string := "Form reset successfully"

  /** The component state the handlers touch (the theme is not part of it). */
  datatype AppState = AppState(
    form: FormData,
    errors: FieldErrors,
    copied: bool,
    notification: Option<Notification>)

  // ---------------------------------------------------------------------------
  // Defaults
  // ---------------------------------------------------------------------------

  /** `new Date().toISOString().split('T')[0]` for a day with a four-digit year. */
  function TodayText(today: Date): string
    requires ValidDate(today)
  {
    FormatIsoDate(today)
  }

  /** The empty form, dated `today`, on the first duration. */
  function InitialState(today: Date): (f: FormData)
    requires ValidDate(today) && 1000 <= today.year <= 9999
    ensures f.username == "" && f.dataPlan == "" && f.outlineKey == "" && f.smartKey == ""
    ensures f.durationIdx == 0 && DURATIONS[f.durationIdx].months == 1
    ensures ParseIsoDate(f.purchaseDate) == Some(today)
    ensures ExpireDateRaw(f) == FormatIsoDate(AddMonths(today, 1))
  {
    ParseFormat(today);
    ExpireDateOfIso(today, 1);
    FormData("", TodayText(today), 0, "", "", "")
  }

  // ---------------------------------------------------------------------------
  // Text inputs
  // ---------------------------------------------------------------------------

  /** The inputs wired to the shared change handler, by their `name`. */
  datatype TextField = Username | PurchaseDate | DataPlan | OutlineKey | SmartKey

  function FieldValue(form: FormData, field: TextField): string {
    match field
    case Username => form.username
    case PurchaseDate => form.purchaseDate
    case DataPlan => form.dataPlan
    case OutlineKey => form.outlineKey
    case SmartKey => form.smartKey
  }

  /** `{ ...prev, [name]: value }`: the named field takes the value, nothing else changes. */
  function WithField(form: FormData, field: TextField, value: string): (f: FormData)
    ensures FieldValue(f, field) == value
    ensures forall g :: g != field ==> FieldValue(f, g) == FieldValue(form, g)
    ensures f.durationIdx == form.durationIdx
  {
    match field
    case Username => form.(username := value)
    case PurchaseDate => form.(purchaseDate := value)
    case DataPlan => form.(dataPlan := value)
    case OutlineKey => form.(outlineKey := value)
    case SmartKey => form.(smartKey := value)
  }

  /** A form is determined by its text fields and its duration. */
  lemma FormExtensionality(a: FormData, b: FormData)
    requires forall g :: FieldValue(a, g) == FieldValue(b, g)
    requires a.durationIdx == b.durationIdx
    ensures a == b
  {
    assert FieldValue(a, Username) == FieldValue(b, Username);
    assert FieldValue(a, PurchaseDate) == FieldValue(b, PurchaseDate);
    assert FieldValue(a, DataPlan) == FieldValue(b, DataPlan);
    assert FieldValue(a, OutlineKey) == FieldValue(b, OutlineKey);
    assert FieldValue(a, SmartKey) == FieldValue(b, SmartKey);
  }

  /**
   * `handleInputChange`: the edited field takes the typed value, and editing a
   * required field clears that field's flag; everything else is kept.
   */
  function HandleInputChange(s: AppState, field: TextField, value: string): (r: AppState)
    ensures FieldValue(r.form, field) == value
    ensures forall g :: g != field ==> FieldValue(r.form, g) == FieldValue(s.form, g)
    ensures r.form.durationIdx == s.form.durationIdx
    ensures r.errors.username <==> s.errors.username && field != Username
    ensures r.errors.outlineKey <==> s.errors.outlineKey && field != OutlineKey
    ensures r.copied == s.copied && r.notification == s.notification
  {
    var errors :=
      if field == Username then s.errors.(username := false)
      else if field == OutlineKey then s.errors.(outlineKey := false)
      else s.errors;
    s.(form := WithField(s.form, field, value), errors := errors)
  }

  /** Typing a second value into a field replaces the first. */
  lemma LastEditWins(s: AppState, field: TextField, first: string, second: string)
    ensures HandleInputChange(HandleInputChange(s, field, first), field, second) ==
      HandleInputChange(s, field, second)
  {
    var a := HandleInputChange(HandleInputChange(s, field, first), field, second);
    var b := HandleInputChange(s, field, second);
    FormExtensionality(a.form, b.form);
  }

  /** Re-sending the same value changes nothing. */
  lemma EditIdempotent(s: AppState, field: TextField, value: string)
    ensures var once := HandleInputChange(s, field, value);
      HandleInputChange(once, field, value) == once
  {
    LastEditWins(s, field, value, value);
  }

  /** Edits of two different fields commute. */
  lemma EditsCommute(s: AppState, f: TextField, g: TextField, x: string, y: string)
    requires f != g
    ensures HandleInputChange(HandleInputChange(s, f, x), g, y) ==
      HandleInputChange(HandleInputChange(s, g, y), f, x)
  {
    var a := HandleInputChange(HandleInputChange(s, f, x), g, y);
    var b := HandleInputChange(HandleInputChange(s, g, y), f, x);
    FormExtensionality(a.form, b.form);
  }

  // ---------------------------------------------------------------------------
  // Duration menu
  // ---------------------------------------------------------------------------

  /** The `value` the menu gives the option at position `i`. */
  function OptionValue(i: DurationIndex): string {
    NatToString(i)
  }

  /**
   * The menu's change handler: `parseInt` of the chosen option's decimal value
   * becomes the duration index. The value must name a menu position, since the
   * expiry is read from `DURATIONS` at that index.
   */
  function SelectDuration(s: AppState, value: string): (r: AppState)
    requires value != "" && AllDigits(value) && DigitsValue(value) < |DURATIONS|
    ensures r.form.durationIdx == DigitsValue(value)
    ensures forall g :: FieldValue(r.form, g) == FieldValue(s.form, g)
    ensures r.errors == s.errors && r.copied == s.copied && r.notification == s.notification
  {
    s.(form := s.form.(durationIdx := DigitsValue(value)))
  }

  /**
   * Choosing option `i` selects duration `i`, and the expiry moves to the
   * purchase date plus that option's months.
   */
  lemma SelectOption(s: AppState, i: DurationIndex)
    ensures var value := OptionValue(i);
      && value != "" && AllDigits(value) && DigitsValue(value) < |DURATIONS|
      && SelectDuration(s, value).form.durationIdx == i
      && ExpireDateRaw(SelectDuration(s, value).form) ==
           CalculateExpireDate(s.form.purchaseDate, DURATIONS[i].months)
  {
    DigitsRoundTrip(i);
  }

  // ---------------------------------------------------------------------------
  // Saved draft
  // ---------------------------------------------------------------------------

  /** A parsed draft: each field is present or missing. */
  datatype Draft = Draft(
    username: Option<string>,
    purchaseDate: Option<string>,
    durationIdx: Option<DurationIndex>,
    dataPlan: Option<string>,
    outlineKey: Option<string>,
    smartKey: Option<string>)

  const EMPTY_DRAFT: Draft := Draft(None, None, None, None, None, None)

  /** The draft written for a form: every field present. */
  function SaveDraft(form: FormData): (d: Draft)
    ensures d.durationIdx == Some(form.durationIdx)
    ensures forall g :: DraftValue(d, g) == Some(FieldValue(form, g))
  {
    Draft(Some(form.username), Some(form.purchaseDate), Some(form.durationIdx),
      Some(form.dataPlan), Some(form.outlineKey), Some(form.smartKey))
  }

  function DraftValue(d: Draft, field: TextField): Option<string> {
    match field
    case Username => d.username
    case PurchaseDate => d.purchaseDate
    case DataPlan => d.dataPlan
    case OutlineKey => d.outlineKey
    case SmartKey => d.smartKey
  }

  /** Object spread of one field: the saved value if there is one, else the default. */
  function Over<T>(saved: Option<T>, default: T): T {
    match saved
    case Some(v) => v
    case None => default
  }

  /**
   * The form at start-up: the saved draft spread over `defaults`, the empty
   * form dated on the day the page loads. `None` stands for no stored draft
   * or one that does not parse, which both give the defaults.
   */
  function RestoreDraft(saved: Option<Draft>, defaults: FormData): (f: FormData)
    ensures saved.None? ==> f == defaults
    ensures saved.Some? ==> forall g ::
      FieldValue(f, g) == Over(DraftValue(saved.value, g), FieldValue(defaults, g))
    ensures saved.Some? ==> f.durationIdx == Over(saved.value.durationIdx, defaults.durationIdx)
  {
    match saved
    case None => defaults
    case Some(d) =>
      FormData(
        Over(d.username, defaults.username),
        Over(d.purchaseDate, defaults.purchaseDate),
        Over(d.durationIdx, defaults.durationIdx),
        Over(d.dataPlan, defaults.dataPlan),
        Over(d.outlineKey, defaults.outlineKey),
        Over(d.smartKey, defaults.smartKey))
  }

  /** Restoring a saved form gives that form back, whatever the defaults. */
  lemma DraftRoundTrip(form: FormData, defaults: FormData)
    ensures RestoreDraft(Some(SaveDraft(form)), defaults) == form
  {
    var f := RestoreDraft(Some(SaveDraft(form)), defaults);
    forall g ensures FieldValue(f, g) == FieldValue(form, g) {
      assert DraftValue(SaveDraft(form), g) == Some(FieldValue(form, g));
    }
    FormExtensionality(f, form);
  }

  /** A draft with no fields restores the empty form dated on the load day. */
  lemma EmptyDraftIsDefault(loadDay: Date)
    requires ValidDate(loadDay) && 1000 <= loadDay.year <= 9999
    ensures var f := RestoreDraft(Some(EMPTY_DRAFT), InitialState(loadDay));
      && f == InitialState(loadDay)
      && f.username == "" && f.outlineKey == "" && ParseIsoDate(f.purchaseDate) == Some(loadDay)
  {
    var f := RestoreDraft(Some(EMPTY_DRAFT), InitialState(loadDay));
    forall g ensures FieldValue(f, g) == FieldValue(InitialState(loadDay), g) {
      assert DraftValue(EMPTY_DRAFT, g) == None;
    }
    FormExtensionality(f, InitialState(loadDay));
  }

  // ---------------------------------------------------------------------------
  // Reset
  // ---------------------------------------------------------------------------

  /**
   * `handleReset`: when the user confirms, the form returns to its defaults
   * dated `today`, the flags and the copied mark are cleared and a success
   * banner is shown; when they decline, nothing changes.
   */
  function HandleReset(s: AppState, confirmed: bool, today: Date): (r: AppState)
    requires ValidDate(today) && 1000 <= today.year <= 9999
    ensures !confirmed ==> r == s
    ensures confirmed ==> forall g :: FieldValue(r.form, g) == FieldValue(InitialState(today), g)
    ensures confirmed ==> r.form.durationIdx == 0 && r.errors == NO_ERRORS && !r.copied
    ensures confirmed ==> r.notification == Some(Notification(Success, RESET_MESSAGE))
  {
    if confirmed then
      AppState(InitialState(today), NO_ERRORS, false, Some(Notification(Success, RESET_MESSAGE)))
    else s
  }

  // ---------------------------------------------------------------------------
  // Copy
  // ---------------------------------------------------------------------------

  /** The check in `handleCopy`: a required field is flagged when it is empty after trimming. */
  function RequiredFieldErrors(form: FormData): (e: FieldErrors)
    ensures e.username <==> forall k :: 0 <= k < |form.username| ==> IsJsWhitespace(form.username[k])
    ensures e.outlineKey <==> forall k :: 0 <= k < |form.outlineKey| ==> IsJsWhitespace(form.outlineKey[k])
  {
    BlankIffAllWhitespace(form.username);
    BlankIffAllWhitespace(form.outlineKey);
    FieldErrors(IsBlank(form.username), IsBlank(form.outlineKey))
  }

  /** The state after a copy, and the text written to the clipboard if any. */
  datatype CopyResult = CopyResult(state: AppState, written: Option<string>)

  /**
   * `handleCopy`. With a blank required field the flags are set to exactly
   * the blank fields, an error banner is shown and nothing is written.
   * Otherwise the invoice is written; `clipboardAccepts` is the outcome of
   * that write, which either marks the invoice copied or shows the failure.
   */
  function HandleCopy(s: AppState, clipboardAccepts: bool): (r: CopyResult)
    ensures r.state.form == s.form
    ensures r.written.Some? <==> !IsBlank(s.form.username) && !IsBlank(s.form.outlineKey) && clipboardAccepts
    ensures r.written.Some? ==> r.written.value == InvoiceMessage(s.form)
    ensures RequiredFieldErrors(s.form) != NO_ERRORS ==>
      r.state == s.(errors := RequiredFieldErrors(s.form),
                    notification := Some(Notification(Failure, FILL_REQUIRED_MESSAGE)))
    ensures RequiredFieldErrors(s.form) == NO_ERRORS ==> r.state.errors == s.errors
    ensures RequiredFieldErrors(s.form) == NO_ERRORS && clipboardAccepts ==>
      r.state.copied && r.state.notification == Some(Notification(Success, COPIED_MESSAGE))
    ensures RequiredFieldErrors(s.form) == NO_ERRORS && !clipboardAccepts ==>
      r.state == s.(notification := Some(Notification(Failure, COPY_FAILED_MESSAGE)))
  {
    var errors := RequiredFieldErrors(s.form);
    if errors.username || errors.outlineKey then
      CopyResult(s.(errors := errors, notification := Some(Notification(Failure, FILL_REQUIRED_MESSAGE))), None)
    else if clipboardAccepts then
      CopyResult(s.(copied := true, notification := Some(Notification(Success, COPIED_MESSAGE))),
        Some(InvoiceMessage(s.form)))
    else
      CopyResult(s.(notification := Some(Notification(Failure, COPY_FAILED_MESSAGE))), None)
  }

  /**
   * A copied invoice names the customer as typed and carries the trimmed,
   * non-empty main key between its fences: the gate keeps both placeholders
   * out of anything written to the clipboard.
   */
  lemma CopiedInvoiceIsFilled(s: AppState, clipboardAccepts: bool)
    requires HandleCopy(s, clipboardAccepts).written.Some?
    ensures var lines := MessageLines(s.form, SHOP_CONFIG);
      && HandleCopy(s, clipboardAccepts).written.value == Join(lines, "\n")
      && lines[2] == USERNAME_LABEL + s.form.username
      && lines[8] == CODE_FENCE && lines[10] == CODE_FENCE
      && lines[9] == Trim(s.form.outlineKey) && lines[9] != ""
  {
    assert s.form.username != "" && s.form.outlineKey != "";
    PlaceholderLines(s.form, SHOP_CONFIG);
    MainKeyBlock(s.form, SHOP_CONFIG);
  }

  /**
   * After a refusal, typing non-blank values into the two required fields
   * clears both flags, and the next copy goes through.
   */
  lemma FixAndRetry(s: AppState, clipboardAccepts: bool, username: string, outlineKey: string)
    requires !IsBlank(username) && !IsBlank(outlineKey)
    ensures var refused := HandleCopy(s, clipboardAccepts).state;
      var fixed := HandleInputChange(HandleInputChange(refused, Username, username), OutlineKey, outlineKey);
      && fixed.errors == NO_ERRORS
      && HandleCopy(fixed, true).written == Some(InvoiceMessage(fixed.form))
  {
    var refused := HandleCopy(s, clipboardAccepts).state;
    var fixed := HandleInputChange(HandleInputChange(refused, Username, username), OutlineKey, outlineKey);
    assert FieldValue(fixed.form, Username) == username;
  }

  /**
   * Copying straight after a confirmed reset is refused with both flags set,
   * and the invoice on screen shows both placeholders.
   */
  lemma CopyAfterReset(s: AppState, today: Date, clipboardAccepts: bool)
    requires ValidDate(today) && 1000 <= today.year <= 9999
    ensures var cleared := HandleReset(s, true, today);
      var r := HandleCopy(cleared, clipboardAccepts);
      var lines := MessageLines(cleared.form, SHOP_CONFIG);
      && r.written == None
      && r.state.errors == FieldErrors(true, true)
      && lines[2] == USERNAME_LABEL + USERNAME_PLACEHOLDER
      && lines[9] == MAIN_KEY_PLACEHOLDER
  {
    var cleared := HandleReset(s, true, today);
    PlaceholderLines(cleared.form, SHOP_CONFIG);
    MainKeyBlock(cleared.form, SHOP_CONFIG);
  }
}
