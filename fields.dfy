/**
 * The cleaning that the web framework's form fields apply before a view
 * sees `cleaned_data`: a character field strips surrounding whitespace,
 * then checks that a required value is not empty, that it fits its
 * `max_length` and that it holds no NUL character; a decimal field with
 * `max_digits=5, decimal_places=2` holds at most 999.99 in magnitude.
 * Only the first failing check is reported.
 */
module Fields {
  import opened Wrappers
  import opened Text

  datatype FieldError =
    | Required              // "This field is required."
    | TooLong(limit: nat)   // "Ensure this value has at most <limit> characters"
    | NullCharacter         // "Null characters are not allowed."
    | InvalidChoice         // "Select a valid choice."
    | TooManyDigits         // "Ensure that there are no more than 5 digits in total."
    | BelowMinimum(message: string)

  const Nul: char := '\U{0}'

  /** `forms.CharField(required=..., max_length=...).clean(raw)`. */
  function CleanChar(raw: string, required: bool, maxLength: Option<nat>): (r: Result<string, FieldError>)
    ensures r.Ok? ==> r.value == Strip(raw)
    ensures r.Ok? <==>
              && (required ==> Strip(raw) != [])
              && (maxLength.Some? ==> |Strip(raw)| <= maxLength.value)
              && Nul !in Strip(raw)
    ensures r == Err(Required) <==> required && Strip(raw) == []
    ensures required ==> (r == Err(Required) <==> forall i :: 0 <= i < |raw| ==> IsSpace(raw[i]))
  {
    StripEmptyIffBlank(raw);
    var v := Strip(raw);
    if required && v == [] then Err(Required)
    else if maxLength.Some? && |v| > maxLength.value then Err(TooLong(maxLength.value))
    else if Nul in v then Err(NullCharacter)
    else Ok(v)
  }

  /** The largest magnitude, in hundredths, of a value with 5 digits of which 2 are decimals. */
  const MaxCents := 99999

  /** `DecimalValidator(max_digits=5, decimal_places=2)` on a value given in hundredths. */
  predicate FitsDecimal(cents: int)
  {
    -MaxCents <= cents <= MaxCents
  }
}
