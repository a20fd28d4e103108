/**
 * The request-body schemas of the admin layout routes, as the validation
 * middleware applies them: the content-type gate, then the keys of the
 * schema in order, stopping at the first failure, then keys the schema
 * does not know.  A string the schema library converts to a number
 * arrives here already as a number.
 */
module LayoutValidation {
  import opened Wrappers
  import opened Api
  import Text

  const UnsupportedMediaType: nat := 415

  /** A numeric body field: absent, a number, or something that is not one
    * (a string that does not convert, `null`, an object, a boolean). */
  datatype NumField = NoNum | Num(v: real) | NotNum

  /** A string body field: absent, a string, or something else. */
  datatype TextField = NoText | Str(s: string) | NotStr

  datatype CreateLayoutBody = CreateLayoutBody(name: TextField, rows: NumField, columns: NumField, unknown: seq<string>)

  datatype PriceBody = PriceBody(price: NumField, unknown: seq<string>)

  /** The validated body of `POST /layouts`: the name trimmed. */
  datatype LayoutSpec = LayoutSpec(name: Option<string>, rows: int, columns: int)

  /** The label the error messages put a key under. */
  function Label(key: string): string {
    "\"" + key + "\""
  }

  predicate IsInteger(v: real) {
    v.Floor as real == v
  }

  /** `Joi.number().integer().min(1).required()`. */
  function CheckCount(key: string, f: NumField): (r: Outcome<int>)
    ensures r.Ok? <==> f.Num? && IsInteger(f.v) && f.v >= 1.0
    ensures r.Ok? ==> r.value as real == f.v && r.value >= 1
    ensures r.Err? ==> r.error.status == BadRequest
  {
    match f
    case NoNum => Fail(BadRequest, Label(key) + " is required")
    case NotNum => Fail(BadRequest, Label(key) + " must be a number")
    case Num(v) =>
      if !IsInteger(v) then Fail(BadRequest, Label(key) + " must be an integer")
      else if v < 1.0 then Fail(BadRequest, Label(key) + " must be greater than or equal to 1")
      else Ok(v.Floor)
  }

  /** `Joi.string().trim().optional()`: the trimmed string, which may not
    * be empty. */
  function CheckName(f: TextField): (r: Outcome<Option<string>>)
    ensures r.Ok? <==> f.NoText? || (f.Str? && |Text.Trim(f.s)| > 0)
    ensures r.Ok? && f.Str? ==> r.value == Some(Text.Trim(f.s))
    ensures r.Ok? && f.NoText? ==> r.value.None?
    ensures r.Err? ==> r.error.status == BadRequest
  {
    match f
    case NoText => Ok(None)
    case NotStr => Fail(BadRequest, Label("name") + " must be a string")
    case Str(s) =>
      if |Text.Trim(s)| == 0 then Fail(BadRequest, Label("name") + " is not allowed to be empty")
      else Ok(Some(Text.Trim(s)))
  }

  /** The body has at least one key. */
  predicate HasKeys(b: CreateLayoutBody) {
    !b.name.NoText? || !b.rows.NoNum? || !b.columns.NoNum? || |b.unknown| > 0
  }

  /** The content-type gate: a body with keys must come as JSON or form data. */
  function TypeGate(hasKeys: bool, supportedType: bool): (r: Outcome<()>)
    ensures r.Ok? <==> !hasKeys || supportedType
  {
    if hasKeys && !supportedType then
      Fail(UnsupportedMediaType, "Unsupported content type. Only JSON and form-data are supported.")
    else Ok(())
  }

  /** `validate(layoutValidation.createLayout)`. */
  function CheckCreateLayout(b: CreateLayoutBody, supportedType: bool): (r: Outcome<LayoutSpec>)
    ensures r.Ok? <==>
      (!HasKeys(b) || supportedType) && CheckName(b.name).Ok?
      && CheckCount("rows", b.rows).Ok? && CheckCount("columns", b.columns).Ok? && |b.unknown| == 0
    ensures r.Ok? ==> (r.value.rows >= 1 && r.value.columns >= 1
      && r.value.rows as real == b.rows.v && r.value.columns as real == b.columns.v
      && r.value.name == CheckName(b.name).value)
    ensures r.Err? ==> r.error.status in {BadRequest, UnsupportedMediaType}
  {
    var _ :- TypeGate(HasKeys(b), supportedType);
    var name :- CheckName(b.name);
    var rows :- CheckCount("rows", b.rows);
    var columns :- CheckCount("columns", b.columns);
    if |b.unknown| > 0 then Fail(BadRequest, Label(b.unknown[0]) + " is not allowed")
    else Ok(LayoutSpec(name, rows, columns))
  }

  /** A well-formed request always passes, with its values. */
  lemma WellFormedLayoutAccepted(name: string, rows: nat, columns: nat, supportedType: bool)
    requires |Text.Trim(name)| > 0 && rows >= 1 && columns >= 1 && supportedType
    ensures CheckCreateLayout(CreateLayoutBody(Str(name), Num(rows as real), Num(columns as real), []), supportedType)
      == Ok(LayoutSpec(Some(Text.Trim(name)), rows, columns))
  {
    assert IsInteger(rows as real) && IsInteger(columns as real);
    assert (rows as real).Floor == rows && (columns as real).Floor == columns;
  }

  /** The first failing key is the one reported: a missing row count is
    * reported even when the column count is wrong too. */
  lemma RowsReportedFirst(columns: NumField)
    ensures CheckCreateLayout(CreateLayoutBody(NoText, NoNum, columns, []), true)
      == Fail(BadRequest, "\"rows\" is required")
  {
    assert Label("rows") + " is required" == "\"rows\" is required";
  }

  /** `validate(layoutValidation.updateSpacePrice)`:
    * `Joi.number().positive().required()`. */
  function CheckSpacePrice(b: PriceBody, supportedType: bool): (r: Outcome<real>)
    ensures r.Ok? <==>
      (!(b.price.NoNum? && |b.unknown| == 0) ==> supportedType)
      && b.price.Num? && b.price.v > 0.0 && |b.unknown| == 0
    ensures r.Ok? ==> r.value == b.price.v && r.value > 0.0
    ensures r.Err? ==> r.error.status in {BadRequest, UnsupportedMediaType}
  {
    var _ :- TypeGate(!(b.price.NoNum? && |b.unknown| == 0), supportedType);
    match b.price
    case NoNum => Fail(BadRequest, Label("price") + " is required")
    case NotNum => Fail(BadRequest, Label("price") + " must be a number")
    case Num(v) =>
      if v <= 0.0 then Fail(BadRequest, Label("price") + " must be a positive number")
      else if |b.unknown| > 0 then Fail(BadRequest, Label(b.unknown[0]) + " is not allowed")
      else Ok(v)
  }
}
