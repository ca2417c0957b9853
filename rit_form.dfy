/**
 * The submit logic of the ride form (renderer/src/components/RitForm.tsx):
 * which validator the form uses, the payload handed to the mutation in edit
 * and in create mode, the submit event handler as written and as intended,
 * the integer input rule, and `toDateTimeString`. Form
 * values are dynamically typed; the payload is the input object of the
 * router's `updateCompletely` or `create` procedure.
 */
module RitForm {
  import opened Wrappers
  import opened JsText
  import opened RitSchema

  // toDateTimeString

  /** `toDateTimeString`: the ISO string without its last 8 characters. */
  function ToDateTimeString(iso: string): string {
    JsSubstring(iso, 0, |iso| - 8)
  }

  lemma ToDateTimeStringDropsLastEight(iso: string)
    ensures |iso| >= 8 ==> ToDateTimeString(iso) + iso[|iso| - 8..] == iso
    ensures |iso| < 8 ==> ToDateTimeString(iso) == ""
  {
  }

  predicate DigitsAt(s: string, lo: nat, hi: nat)
    requires lo <= hi <= |s|
  {
    forall i :: lo <= i < hi ==> IsRadixDigit(s[i], 10)
  }

  /** `YYYY-MM-DDTHH:mm`, the value format of a `datetime-local` input. */
  predicate IsDateTimeLocal(s: string) {
    |s| == 16 && DigitsAt(s, 0, 4) && s[4] == '-' && DigitsAt(s, 5, 7) && s[7] == '-'
    && DigitsAt(s, 8, 10) && s[10] == 'T' && DigitsAt(s, 11, 13) && s[13] == ':' && DigitsAt(s, 14, 16)
  }

  /** `YYYY-MM-DDTHH:mm:ss.sssZ`, what `Date.prototype.toISOString` gives for years 0 to 9999. */
  predicate IsIsoInstant(s: string) {
    |s| == 24 && IsDateTimeLocal(s[..16]) && s[16] == ':' && DigitsAt(s, 17, 19) && s[19] == '.'
    && DigitsAt(s, 20, 23) && s[23] == 'Z'
  }

  /** On an ISO instant the result is its 16-character prefix, a valid `datetime-local` value. */
  lemma ToDateTimeStringOfIsoInstant(iso: string)
    requires IsIsoInstant(iso)
    ensures ToDateTimeString(iso) == iso[..16]
    ensures IsDateTimeLocal(ToDateTimeString(iso))
  {
  }

  // Form values

  /**
   * A value held by a form field: a number, the `""` marker of an integer
   * field whose text did not parse, or a `Date`.
   */
  datatype FormVal = Int(i: int) | Empty | Instant(d: JsDate)

  /** The form state handed to the submit callback; `None` is a field left `undefined`. */
  datatype FormData = FormData(
    startTijd: Option<FormVal>, duur: Option<FormVal>, afstand: Option<FormVal>,
    calorie: Option<FormVal>, weerstand: Option<FormVal>)

  /** JavaScript truthiness: `undefined`, `0` and `""` are falsy, every `Date` object is truthy. */
  predicate Truthy(v: Option<FormVal>) {
    match v
    case None => false
    case Some(Int(i)) => i != 0
    case Some(Empty) => false
    case Some(Instant(_)) => true
  }

  /** A form value as it travels to the router. */
  function ToValue(v: FormVal): Value {
    match v
    case Int(i) => Num(i as real)
    case Empty => Str("")
    case Instant(d) => DateV(d)
  }

  /** `formValue ?? fallback`: only `undefined` falls back; `0` and `""` are kept. */
  function Coalesce(v: Option<FormVal>, fallback: Value): Value {
    match v
    case Some(x) => ToValue(x)
    case None => fallback
  }

  // The integer onChange rule

  /** onChange of the duur, calorie and weerstand inputs: `isNaN(parseInt(text)) ? "" : parsed`. */
  function OnIntChange(text: string): FormVal {
    match ParseInt(text)
    case None => Empty
    case Some(n) => Int(n)
  }

  /**
   * The numeral of a safe integer, with any tail that does not continue it
   * (neither a decimal digit nor the `x` of a `0x` prefix), such as `.5`, is
   * stored as that integer.
   */
  lemma OnIntChangeReadsNumeral(n: int, rest: string)
    requires -MaxSafeInteger <= n <= MaxSafeInteger
    requires rest == [] || (!IsRadixDigit(rest[0], 10) && rest[0] != 'x' && rest[0] != 'X')
    ensures OnIntChange(IntToDecimal(n) + rest) == Int(n)
  {
    ParseIntDecimal(n, rest);
  }

  /** Text without any decimal digit (an emptied input) is stored as the `""` marker. */
  lemma OnIntChangeWithoutDigits(text: string)
    requires forall i :: 0 <= i < |text| ==> !IsRadixDigit(text[i], 10)
    ensures OnIntChange(text) == Empty
  {
    ParseIntNoDigit(text);
  }

  // Submitting

  datatype Resolver = CreateRitValidator | EditRitValidator

  /** The form is an edit form exactly when it is given an existing record. */
  function ResolverFor(existing: Option<Rit>): (r: Resolver)
    ensures r == EditRitValidator <==> existing.Some?
  {
    if existing.Some? then EditRitValidator else CreateRitValidator
  }

  /** Edit mode: the record's own id, and each field from the form unless it is `undefined`. */
  function EditPayload(rit: Rit, form: FormData): RawInput {
    RawInput(
      Str(rit.id),
      Coalesce(form.startTijd, DateV(ValidDate(rit.data.date))),
      Coalesce(form.duur, Num(rit.data.duration as real)),
      Coalesce(form.afstand, Num(rit.data.distance as real)),
      Coalesce(form.calorie, Num(rit.data.calories as real)),
      Coalesce(form.weerstand, Num(rit.data.resistance as real)))
  }

  /** Create mode: submitted only when all five values are truthy, renamed to the API's keys, without id. */
  function CreatePayload(form: FormData): Option<RawInput> {
    if Truthy(form.startTijd) && Truthy(form.duur) && Truthy(form.afstand)
       && Truthy(form.calorie) && Truthy(form.weerstand)
    then
      Some(RawInput(Missing, ToValue(form.startTijd.value), ToValue(form.duur.value),
                    ToValue(form.afstand.value), ToValue(form.calorie.value), ToValue(form.weerstand.value)))
    else
      None
  }

  /**
   * The callback given to `handleSubmit`: once the chosen validator accepts
   * the form, it calls `mutationFn` with the payload of the form's mode;
   * `None` means it does not call it. The two validators are not part of this
   * model and are given as `accepts`.
   */
  function OnSubmit(existing: Option<Rit>, form: FormData, accepts: (Resolver, FormData) -> bool): (call: Option<RawInput>)
    ensures call.Some? ==> accepts(ResolverFor(existing), form)
    ensures existing.Some? ==> (call.Some? <==> accepts(EditRitValidator, form))
    ensures existing.Some? && call.Some? ==> call.value.id == Str(existing.value.id)
    ensures existing.None? && call.Some? ==> call.value.id == Missing
  {
    if !accepts(ResolverFor(existing), form) then None
    else
      match existing
      case Some(rit) => Some(EditPayload(rit, form))
      case None => CreatePayload(form)
  }

  /**
   * What a submit event of the form leads to: the payload `mutationFn` is
   * called with, if any, and whether the browser's own form submission (a
   * page reload) is prevented.
   */
  datatype SubmitOutcome = SubmitOutcome(mutation: Option<RawInput>, defaultPrevented: bool)

  /**
   * `onSubmit={handleSubmit(callback)}`: react-hook-form's handler prevents
   * the browser's submission, validates, and runs the callback.
   */
  function HandleSubmit(existing: Option<Rit>, form: FormData, accepts: (Resolver, FormData) -> bool): (out: SubmitOutcome)
    ensures out.defaultPrevented
    ensures out.mutation.Some? ==> accepts(ResolverFor(existing), form)
    ensures existing.Some? ==> (out.mutation.Some? <==> accepts(EditRitValidator, form))
  {
    SubmitOutcome(OnSubmit(existing, form, accepts), true)
  }

  /**
   * `onSubmit={() => { return handleSubmit(callback); }}` as written: the
   * event handler builds react-hook-form's handler and returns it without
   * calling it, so nothing is validated, `mutationFn` is never called and
   * the browser goes on with its own submission.
   */
  function OnSubmitAsWritten(existing: Option<Rit>, form: FormData, accepts: (Resolver, FormData) -> bool): (out: SubmitOutcome)
    ensures out.mutation == None && !out.defaultPrevented
  {
    SubmitOutcome(None, false)
  }

  /**
   * The handler as written drops a submit that the intended one sends:
   * saving an untouched edit form of a stored ride, which the validator
   * accepts, writes the ride back through `updateCompletely` when the
   * handler is called, and does nothing as the handler is written.
   */
  lemma SubmitHandlerNotInvoked(rit: Rit, accepts: (Resolver, FormData) -> bool)
    requires IsCuid(rit.id) && accepts(EditRitValidator, FormData(None, None, None, None, None))
    ensures OnSubmitAsWritten(Some(rit), FormData(None, None, None, None, None), accepts).mutation == None
    ensures var sent := HandleSubmit(Some(rit), FormData(None, None, None, None, None), accepts).mutation;
      sent.Some? && ValidateUpdateInput(sent.value) == Success(rit)
  {
    UntouchedEditReproducesRecord(rit);
  }

  // Properties of the payloads

  /** An edit-form field left undefined or holding an integer. */
  predicate IsIntField(v: Option<FormVal>) {
    v.None? || v.value.Int?
  }

  /** An edit-form field left undefined or holding a valid `Date`. */
  predicate IsDateField(v: Option<FormVal>) {
    v.None? || (v.value.Instant? && v.value.d.ValidDate?)
  }

  /** The typed value of an edit-form field: the form's integer, or the record's when undefined. */
  function MergeInt(v: Option<FormVal>, current: int): int
    requires IsIntField(v)
  {
    if v.Some? then v.value.i else current
  }

  function MergeDate(v: Option<FormVal>, current: int): int
    requires IsDateField(v)
  {
    if v.Some? then v.value.d.millis else current
  }

  /**
   * An edit submit whose fields are integers, valid dates or undefined is
   * accepted by `updateCompletely`, which receives the record's own id and,
   * per column, the form's value where one was entered (`0` included) and the
   * record's value elsewhere.
   */
  lemma EditPayloadUpdatesRecord(rit: Rit, form: FormData)
    requires IsCuid(rit.id)
    requires IsDateField(form.startTijd) && IsIntField(form.duur) && IsIntField(form.afstand)
    requires IsIntField(form.calorie) && IsIntField(form.weerstand)
    ensures ValidateUpdateInput(EditPayload(rit, form)) == Success(Rit(rit.id, RitData(
      MergeDate(form.startTijd, rit.data.date), MergeInt(form.duur, rit.data.duration),
      MergeInt(form.afstand, rit.data.distance), MergeInt(form.calorie, rit.data.calories),
      MergeInt(form.weerstand, rit.data.resistance))))
  {
  }

  /** Submitting an untouched edit form writes the record back unchanged. */
  lemma UntouchedEditReproducesRecord(rit: Rit)
    requires IsCuid(rit.id)
    ensures ValidateUpdateInput(EditPayload(rit, FormData(None, None, None, None, None))) == Success(rit)
  {
    EditPayloadUpdatesRecord(rit, FormData(None, None, None, None, None));
  }

  /**
   * An integer field emptied in edit mode is sent as `""` rather than falling
   * back to the record, and `updateCompletely` refuses it.
   */
  lemma EditEmptyFieldRefused(rit: Rit, form: FormData)
    requires form.duur == Some(Empty) || form.afstand == Some(Empty)
          || form.calorie == Some(Empty) || form.weerstand == Some(Empty)
    ensures ValidateUpdateInput(EditPayload(rit, form)).Failure?
  {
  }

  /** A zero, an emptied or an untouched field in create mode means nothing is submitted. */
  lemma CreateBlockedByFalsyField(form: FormData, accepts: (Resolver, FormData) -> bool)
    requires !Truthy(form.startTijd) || !Truthy(form.duur) || !Truthy(form.afstand)
          || !Truthy(form.calorie) || !Truthy(form.weerstand)
    ensures OnSubmit(None, form, accepts) == None
  {
  }

  /**
   * A create submit carries no id and maps startTijd, duur, afstand, calorie and
   * weerstand to date, duration, distance, calories and resistance; with a
   * valid date and integers, `create` receives exactly those values.
   */
  lemma CreatePayloadRenamesFields(form: FormData, accepts: (Resolver, FormData) -> bool)
    requires OnSubmit(None, form, accepts).Some?
    ensures accepts(CreateRitValidator, form)
    ensures OnSubmit(None, form, accepts).value.id == Missing
    ensures form.startTijd.Some? && form.duur.Some? && form.afstand.Some?
    ensures form.calorie.Some? && form.weerstand.Some?
    ensures ValidateCreateInput(OnSubmit(None, form, accepts).value).Success? <==>
              form.startTijd.value.Instant? && form.startTijd.value.d.ValidDate?
              && form.duur.value.Int? && form.afstand.value.Int? && form.calorie.value.Int?
              && form.weerstand.value.Int?
    ensures ValidateCreateInput(OnSubmit(None, form, accepts).value).Success? ==>
              ValidateCreateInput(OnSubmit(None, form, accepts).value).value == RitData(
                form.startTijd.value.d.millis, form.duur.value.i, form.afstand.value.i,
                form.calorie.value.i, form.weerstand.value.i)
  {
  }

  /** A new form with a start time and the numerals of four integers typed into the number inputs. */
  function TypedForm(millis: int, duur: int, afstand: int, calorie: int, weerstand: int): FormData {
    FormData(Some(Instant(ValidDate(millis))), Some(OnIntChange(IntToDecimal(duur))), Some(Int(afstand)),
             Some(OnIntChange(IntToDecimal(calorie))), Some(OnIntChange(IntToDecimal(weerstand))))
  }

  /**
   * Typing the numerals of nonzero safe integers into the integer inputs of a new
   * form with a valid start time makes a create payload that `create`
   * accepts with exactly those values; typing `0` into any of them makes none.
   */
  lemma TypedCreateForm(millis: int, duur: int, afstand: int, calorie: int, weerstand: int)
    requires -MaxSafeInteger <= duur <= MaxSafeInteger && -MaxSafeInteger <= calorie <= MaxSafeInteger
    requires -MaxSafeInteger <= weerstand <= MaxSafeInteger
    ensures var payload := CreatePayload(TypedForm(millis, duur, afstand, calorie, weerstand));
      if duur != 0 && afstand != 0 && calorie != 0 && weerstand != 0 then
        payload.Some? && ValidateCreateInput(payload.value) == Success(RitData(millis, duur, afstand, calorie, weerstand))
      else
        payload == None
  {
    OnIntChangeOfNumeral(duur);
    OnIntChangeOfNumeral(calorie);
    OnIntChangeOfNumeral(weerstand);
    assert TypedForm(millis, duur, afstand, calorie, weerstand) == IntegerForm(millis, duur, afstand, calorie, weerstand);
    IntegerCreateForm(millis, duur, afstand, calorie, weerstand);
  }

  /** The same new form once each typed numeral has been stored as its integer. */
  function IntegerForm(millis: int, duur: int, afstand: int, calorie: int, weerstand: int): FormData {
    FormData(Some(Instant(ValidDate(millis))), Some(Int(duur)), Some(Int(afstand)),
             Some(Int(calorie)), Some(Int(weerstand)))
  }

  /** Create mode on a form of integers: a payload, with those values, exactly when none is `0`. */
  lemma IntegerCreateForm(millis: int, duur: int, afstand: int, calorie: int, weerstand: int)
    ensures var payload := CreatePayload(IntegerForm(millis, duur, afstand, calorie, weerstand));
      if duur != 0 && afstand != 0 && calorie != 0 && weerstand != 0 then
        payload.Some? && ValidateCreateInput(payload.value) == Success(RitData(millis, duur, afstand, calorie, weerstand))
      else
        payload == None
  {
    var form := IntegerForm(millis, duur, afstand, calorie, weerstand);
    var always := (r: Resolver, f: FormData) => true;
    if duur != 0 && afstand != 0 && calorie != 0 && weerstand != 0 {
      assert OnSubmit(None, form, always) == CreatePayload(form);
      CreatePayloadRenamesFields(form, always);
    } else {
      CreateBlockedByFalsyField(form, always);
    }
  }

  /** The bare numeral of a safe integer is stored as that integer. */
  lemma OnIntChangeOfNumeral(n: int)
    requires -MaxSafeInteger <= n <= MaxSafeInteger
    ensures OnIntChange(IntToDecimal(n)) == Int(n)
  {
    OnIntChangeReadsNumeral(n, []);
    assert IntToDecimal(n) + [] == IntToDecimal(n);
  }
}
