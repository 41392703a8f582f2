/** What the form pages share: an error object holding one message per field
    (a blank message shows nothing) and the rule that editing a field blanks
    its message. */
module Forms {
  import opened Optional

  /** The result of a page's `validateForm`: the error object it stores with
      `setErrors` and the boolean it returns. */
  datatype Validation<F(==)> = Validation(errors: map<F, string>, valid: bool)

  /** A page's form contents together with its error object. */
  datatype FormState<D, F(==)> = FormState(data: D, errors: map<F, string>)

  /** Field `f` has a message on screen: `errors[f]` is a non-empty string. */
  predicate Shows<F(==)>(errors: map<F, string>, f: F) {
    f in errors && errors[f] != ""
  }

  /** One check of a `validateForm`: when it produced a message, the message
      is stored under the field; otherwise the error object is unchanged. */
  function Record<F(==)>(errors: map<F, string>, f: F, message: Option<string>): (r: map<F, string>)
    ensures r.Keys == if message.Some? then errors.Keys + {f} else errors.Keys
    ensures message.Some? ==> r[f] == message.value
    ensures forall g | g in errors && g != f :: r[g] == errors[g]
  {
    if message.Some? then errors[f := message.value] else errors
  }

  /** The error object a `validateForm` builds: the fields are checked in
      order and each failing one is stored with its check's message. */
  function CollectErrors<F(==)>(fields: seq<F>, check: F -> Option<string>): (r: map<F, string>)
    ensures forall f | f in r :: f in fields && check(f).Some? && r[f] == check(f).value
    ensures forall f | f in fields && check(f).Some? :: f in r
  {
    if |fields| == 0 then map[]
    else
      var last := fields[|fields| - 1];
      var r := Record(CollectErrors(fields[..|fields| - 1], check), last, check(last));
      assert fields == fields[..|fields| - 1] + [last];
      r
  }

  /** The "clear error when user starts typing" rule: a shown message is
      replaced by "", and a missing or blank one is left alone. */
  function ClearIfSet<F(==)>(errors: map<F, string>, f: F): (r: map<F, string>)
    ensures r.Keys == errors.Keys
    ensures f in r ==> r[f] == ""
    ensures forall g | g in errors && g != f :: r[g] == errors[g]
  {
    if Shows(errors, f) then errors[f := ""] else errors
  }

  /** The unconditional variant: the field's message is set to "" whether or
      not one was there. */
  function Clear<F(==)>(errors: map<F, string>, f: F): (r: map<F, string>)
    ensures r.Keys == errors.Keys + {f}
    ensures r[f] == ""
    ensures forall g | g in errors && g != f :: r[g] == errors[g]
  {
    errors[f := ""]
  }

  /** Both rules hide exactly the edited field's message and keep every other one. */
  lemma ClearingHidesOnlyThatField<F>(errors: map<F, string>, f: F, g: F)
    ensures Shows(ClearIfSet(errors, f), g) <==> Shows(errors, g) && g != f
    ensures Shows(Clear(errors, f), g) <==> Shows(errors, g) && g != f
  {
  }

  /** The two rules differ only in whether a blank entry appears for a field
      that had none, so what is on screen is the same. */
  lemma ClearingRulesAgreeOnScreen<F>(errors: map<F, string>, f: F)
    ensures forall g :: Shows(ClearIfSet(errors, f), g) <==> Shows(Clear(errors, f), g)
    ensures f in errors ==> ClearIfSet(errors, f) == Clear(errors, f)
  {
  }
}
