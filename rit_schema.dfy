/**
 * The ride record ("rit") and the zod input schemas of the tRPC procedures in
 * api/router/rit.ts. Procedure inputs arrive as dynamically typed objects;
 * validation either yields the typed record or the list of issues zod reports,
 * one per failing key, in the order the keys are declared in the schema.
 */
module RitSchema {
  import opened Wrappers
  import opened JsText

  type Id = string

  /** A JavaScript `Date`: an instant in milliseconds, or an Invalid Date (NaN time value). */
  datatype JsDate = ValidDate(millis: int) | InvalidDate

  /** A dynamically typed value under one key of an input object; `Missing` is `undefined`. */
  datatype Value = Missing | Num(n: real) | Str(s: string) | DateV(d: JsDate)

  /** The input object of a procedure, by key. Keys a schema does not declare are stripped. */
  datatype RawInput = RawInput(
    id: Value, date: Value, duration: Value, distance: Value, calories: Value, resistance: Value)

  /** The five data columns of a ride: start instant, minutes, millimetres, kcal, resistance level. */
  datatype RitData = RitData(date: int, duration: int, distance: int, calories: int, resistance: int)

  /** A row of the `rit` table. */
  datatype Rit = Rit(id: Id, data: RitData)

  datatype Field = IdField | DateField | DurationField | DistanceField | CaloriesField | ResistanceField

  datatype IssueCode = Required | InvalidType | NotInteger | InvalidDateValue | InvalidCuid

  /** One entry of a zod validation error: the key it is about and what is wrong with it. */
  datatype Issue = Issue(field: Field, code: IssueCode)

  /**
   * `z.string().cuid()`: zod's pattern `/^c[^\s-]{8,}$/i`, a `c` or `C` followed
   * by at least eight characters that are neither white space nor `-`. The
   * pattern has no `u` flag, so it counts UTF-16 code units: a character above
   * U+FFFF counts twice.
   */
  predicate IsCuid(s: string) {
    |s| >= 1 && (s[0] == 'c' || s[0] == 'C')
    && (forall i :: 1 <= i < |s| ==> !IsJsWhitespace(s[i]) && s[i] != '-')
    && Utf16Length(s[1..]) >= 8
  }

  /** `Number.isInteger` on a finite number. */
  predicate IsIntegral(n: real) {
    n.Floor as real == n
  }

  // Issues of one key, as each zod schema reports them.

  function StringIssues(f: Field, v: Value): seq<Issue> {
    match v
    case Str(_) => []
    case Missing => [Issue(f, Required)]
    case _ => [Issue(f, InvalidType)]
  }

  function CuidIssues(f: Field, v: Value): seq<Issue> {
    match v
    case Str(s) => if IsCuid(s) then [] else [Issue(f, InvalidCuid)]
    case _ => StringIssues(f, v)
  }

  function DateIssues(f: Field, v: Value): seq<Issue> {
    match v
    case DateV(ValidDate(_)) => []
    case DateV(InvalidDate) => [Issue(f, InvalidDateValue)]
    case Missing => [Issue(f, Required)]
    case _ => [Issue(f, InvalidType)]
  }

  function IntIssues(f: Field, v: Value): seq<Issue> {
    match v
    case Num(n) => if IsIntegral(n) then [] else [Issue(f, NotInteger)]
    case Missing => [Issue(f, Required)]
    case _ => [Issue(f, InvalidType)]
  }

  /** Issues of the five data keys, shared by the `create` and `updateCompletely` schemas. */
  function DataIssues(raw: RawInput): seq<Issue> {
    DateIssues(DateField, raw.date) + IntIssues(DurationField, raw.duration)
    + IntIssues(DistanceField, raw.distance) + IntIssues(CaloriesField, raw.calories)
    + IntIssues(ResistanceField, raw.resistance)
  }

  // What each schema accepts, stated per key and independently of the issue lists.

  predicate DatePresent(v: Value) {
    v.DateV? && v.d.ValidDate?
  }

  predicate IntPresent(v: Value) {
    v.Num? && IsIntegral(v.n)
  }

  predicate DataPresent(raw: RawInput) {
    DatePresent(raw.date) && IntPresent(raw.duration) && IntPresent(raw.distance)
    && IntPresent(raw.calories) && IntPresent(raw.resistance)
  }

  predicate CuidPresent(v: Value) {
    v.Str? && IsCuid(v.s)
  }

  /** The typed record holds exactly the values given under the five data keys. */
  predicate Carries(raw: RawInput, d: RitData) {
    && raw.date == DateV(ValidDate(d.date))
    && raw.duration == Num(d.duration as real)
    && raw.distance == Num(d.distance as real)
    && raw.calories == Num(d.calories as real)
    && raw.resistance == Num(d.resistance as real)
  }

  function IssueFields(issues: seq<Issue>): set<Field> {
    set i | i in issues :: i.field
  }

  /** The data keys whose value the schema refuses. */
  function FailingDataFields(raw: RawInput): set<Field> {
    (if DatePresent(raw.date) then {} else {DateField})
    + (if IntPresent(raw.duration) then {} else {DurationField})
    + (if IntPresent(raw.distance) then {} else {DistanceField})
    + (if IntPresent(raw.calories) then {} else {CaloriesField})
    + (if IntPresent(raw.resistance) then {} else {ResistanceField})
  }

  // The four input schemas of the router.

  /** Input of `get`: `{ id: z.string() }`. Any string is accepted. */
  function ValidateGetInput(raw: RawInput): (r: Result<Id, seq<Issue>>)
    ensures r.Success? <==> raw.id.Str?
    ensures r.Success? ==> raw.id == Str(r.value)
    ensures r.Failure? ==> r.error == [Issue(IdField, if raw.id.Missing? then Required else InvalidType)]
  {
    var issues := StringIssues(IdField, raw.id);
    if issues == [] then Success(raw.id.s) else Failure(issues)
  }

  /** Input of `create`: a date and four integers; any `id` key is stripped. */
  function ValidateCreateInput(raw: RawInput): (r: Result<RitData, seq<Issue>>)
    ensures r.Success? <==> DataPresent(raw)
    ensures r.Success? ==> Carries(raw, r.value)
    ensures r.Failure? ==> r.error == DataIssues(raw) && r.error != []
  {
    var issues := DataIssues(raw);
    if issues == [] then
      Success(RitData(raw.date.d.millis, raw.duration.n.Floor, raw.distance.n.Floor,
                      raw.calories.n.Floor, raw.resistance.n.Floor))
    else
      Failure(issues)
  }

  /** Input of `updateCompletely`: a cuid-shaped id and all five data keys. */
  function ValidateUpdateInput(raw: RawInput): (r: Result<Rit, seq<Issue>>)
    ensures r.Success? <==> CuidPresent(raw.id) && DataPresent(raw)
    ensures r.Success? ==> raw.id == Str(r.value.id) && Carries(raw, r.value.data)
    ensures r.Failure? ==> r.error == CuidIssues(IdField, raw.id) + DataIssues(raw) && r.error != []
  {
    var issues := CuidIssues(IdField, raw.id) + DataIssues(raw);
    if issues == [] then
      Success(Rit(raw.id.s, RitData(raw.date.d.millis, raw.duration.n.Floor, raw.distance.n.Floor,
                                    raw.calories.n.Floor, raw.resistance.n.Floor)))
    else
      Failure(issues)
  }

  /** Input of `delete`: `{ id: z.string().cuid() }`. */
  function ValidateDeleteInput(raw: RawInput): (r: Result<Id, seq<Issue>>)
    ensures r.Success? <==> CuidPresent(raw.id)
    ensures r.Success? ==> raw.id == Str(r.value)
    ensures r.Failure? ==> r.error == CuidIssues(IdField, raw.id) && r.error != []
  {
    var issues := CuidIssues(IdField, raw.id);
    if issues == [] then Success(raw.id.s) else Failure(issues)
  }

  // Properties of the schemas.

  /** A refused data input names exactly the keys whose value is refused. */
  lemma DataIssuesNameFailingFields(raw: RawInput)
    ensures IssueFields(DataIssues(raw)) == FailingDataFields(raw)
  {
    var a, b, c, d, e := DateIssues(DateField, raw.date), IntIssues(DurationField, raw.duration),
                         IntIssues(DistanceField, raw.distance), IntIssues(CaloriesField, raw.calories),
                         IntIssues(ResistanceField, raw.resistance);
    IssueFieldsOfConcat(a + b + c + d, e);
    IssueFieldsOfConcat(a + b + c, d);
    IssueFieldsOfConcat(a + b, c);
    IssueFieldsOfConcat(a, b);
    DateIssuesField(DateField, raw.date);
    IntIssuesField(DurationField, raw.duration);
    IntIssuesField(DistanceField, raw.distance);
    IntIssuesField(CaloriesField, raw.calories);
    IntIssuesField(ResistanceField, raw.resistance);
  }

  lemma DateIssuesField(f: Field, v: Value)
    ensures IssueFields(DateIssues(f, v)) == if DatePresent(v) then {} else {f}
  {
    if !DatePresent(v) {
      assert DateIssues(f, v)[0] in DateIssues(f, v);
    }
  }

  lemma IntIssuesField(f: Field, v: Value)
    ensures IssueFields(IntIssues(f, v)) == if IntPresent(v) then {} else {f}
  {
    if !IntPresent(v) {
      assert IntIssues(f, v)[0] in IntIssues(f, v);
    }
  }

  lemma IssueFieldsOfConcat(a: seq<Issue>, b: seq<Issue>)
    ensures IssueFields(a + b) == IssueFields(a) + IssueFields(b)
  {
    assert forall i :: i in a + b <==> i in a || i in b;
  }

  /**
   * `updateCompletely` is a full replace, never a patch: leaving out any one
   * of the five data keys is refused, and the issue says the key is required.
   */
  lemma UpdateRequiresEveryField(raw: RawInput, f: Field)
    requires f != IdField
    requires f == DateField ==> raw.date.Missing?
    requires f == DurationField ==> raw.duration.Missing?
    requires f == DistanceField ==> raw.distance.Missing?
    requires f == CaloriesField ==> raw.calories.Missing?
    requires f == ResistanceField ==> raw.resistance.Missing?
    ensures ValidateUpdateInput(raw).Failure?
    ensures Issue(f, Required) in ValidateUpdateInput(raw).error
  {
    var parts := [CuidIssues(IdField, raw.id), DateIssues(DateField, raw.date),
                  IntIssues(DurationField, raw.duration), IntIssues(DistanceField, raw.distance),
                  IntIssues(CaloriesField, raw.calories), IntIssues(ResistanceField, raw.resistance)];
    assert ValidateUpdateInput(raw).error == parts[0] + parts[1] + parts[2] + parts[3] + parts[4] + parts[5];
  }

  /**
   * One schema with an id flag: the update schema accepts exactly what the
   * create schema and the delete schema both accept, with the same values.
   */
  lemma UpdateIsCreateWithCuid(raw: RawInput)
    ensures ValidateUpdateInput(raw).Success?
        <==> ValidateCreateInput(raw).Success? && ValidateDeleteInput(raw).Success?
    ensures ValidateUpdateInput(raw).Success? ==>
        ValidateUpdateInput(raw).value == Rit(ValidateDeleteInput(raw).value, ValidateCreateInput(raw).value)
  {
  }

  /** `get` checks only that the id is a string: it accepts ids that `delete` refuses. */
  lemma GetIsLaxerThanDelete(raw: RawInput)
    ensures ValidateDeleteInput(raw).Success? ==> ValidateGetInput(raw) == ValidateDeleteInput(raw)
    ensures raw.id == Str("") ==> ValidateGetInput(raw).Success? && ValidateDeleteInput(raw).Failure?
  {
  }

  /**
   * The length bound of the cuid pattern counts UTF-16 code units: `c`
   * followed by four characters above U+FFFF passes, `c` followed by four
   * letters does not.
   */
  lemma CuidCountsCodeUnits()
    ensures IsCuid("c\U{1F6B2}\U{1F6B2}\U{1F6B2}\U{1F6B2}")
    ensures !IsCuid("caaaa")
  {
  }

  // Fresh identifiers.

  /** An upper bound on the lengths of a finite set of ids. */
  ghost function MaxLength(ids: set<Id>): (m: nat)
    ensures forall id :: id in ids ==> |id| <= m
  {
    if ids == {} then 0
    else
      var id :| id in ids;
      var rest := MaxLength(ids - {id});
      if |id| > rest then |id| else rest
  }

  /** A cuid-shaped id of the given length. */
  function CuidOfLength(n: nat): (s: Id)
    requires n >= 9
    ensures |s| == n && IsCuid(s)
  {
    ['c'] + seq(n - 1, _ => 'z')
  }

  /** Whatever ids are taken, a cuid-shaped id that is not among them exists. */
  lemma FreshCuidExists(ids: set<Id>)
    ensures exists id :: IsCuid(id) && id !in ids
  {
    var id := CuidOfLength(MaxLength(ids) + 9);
    assert IsCuid(id) && id !in ids;
  }
}
