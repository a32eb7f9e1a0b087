/** validation/NullCheckValidator.java: the `@NullCheck` constraint of the
    update request bodies. Absent (null) is fine; a present value must not be
    blank once its `toString()` is trimmed. */
module Validation {
  import opened JavaStrings

  /** The values `@NullCheck` fields hold: strings, and the department's
      list of category numbers. */
  datatype JValue = JNull | JString(s: string) | JLongs(xs: seq<int>)

  /** `value.toString()` of a non-null value. */
  function ToString(v: JValue): string
    requires !v.JNull?
  {
    match v
    case JString(s) => s
    case JLongs(xs) => LongListToString(xs)
  }

  /** `isValid(value, context)`. The context is not used and `initialize`
      keeps nothing, so validity is a function of the value alone. */
  predicate IsValid(v: JValue)
    ensures v.JNull? ==> IsValid(v)
    ensures v == JString("") ==> !IsValid(v)
  {
    v.JNull? || Trim(ToString(v)) != ""
  }

  /** Null passes: `@NullCheck` leaves the field optional. */
  lemma NullIsValid()
    ensures IsValid(JNull)
  {
  }

  /** A string is valid exactly when some character is above U+0020, the
      characters `trim` strips. */
  lemma {:induction false} StringValidIff(s: string)
    ensures IsValid(JString(s)) <==> exists i :: 0 <= i < |s| && s[i] > ' '
  {
    TrimEmptyIff(s);
  }

  /** In particular the empty string and blanks are rejected. */
  lemma BlankIsInvalid(n: nat)
    ensures !IsValid(JString(""))
    ensures !IsValid(JString(Blanks(n)))
  {
    StringValidIff(Blanks(n));
  }

  function Blanks(n: nat): (s: string)
    ensures |s| == n && forall i :: 0 <= i < n ==> s[i] == ' '
  {
    if n == 0 then "" else " " + Blanks(n - 1)
  }

  /** A list, even an empty one, prints with brackets and is always valid. */
  lemma {:induction false} ListIsValid(xs: seq<int>)
    ensures IsValid(JLongs(xs))
  {
    var s := LongListToString(xs);
    TrimEmptyIff(s);
    assert s[0] == '[';
  }

  /** A field with the constraint and its message. */
  datatype Checked = Checked(value: JValue, message: string)

  /** The messages of the failed constraints, in field order: what
      `MethodArgumentNotValidException` carries to the exception handler. */
  function Violations(fields: seq<Checked>): (msgs: seq<string>)
    ensures |msgs| <= |fields|
    ensures msgs == [] <==> forall i :: 0 <= i < |fields| ==> IsValid(fields[i].value)
    ensures forall m :: m in msgs ==> exists i :: 0 <= i < |fields| && fields[i].message == m && !IsValid(fields[i].value)
  {
    Failures(fields, (c: Checked) => IsValid(c.value), (c: Checked) => c.message)
  }

  /** The messages of the elements that fail `ok`, in order. */
  function Failures<T>(xs: seq<T>, ok: T -> bool, message: T -> string): (msgs: seq<string>)
    ensures |msgs| <= |xs|
    ensures msgs == [] <==> forall i :: 0 <= i < |xs| ==> ok(xs[i])
    ensures forall m :: m in msgs ==> exists i :: 0 <= i < |xs| && message(xs[i]) == m && !ok(xs[i])
  {
    if xs == [] then []
    else
      var rest := Failures(xs[1..], ok, message);
      assert forall i :: 1 <= i < |xs| ==> xs[i] == xs[1..][i - 1];
      if ok(xs[0]) then rest else [message(xs[0])] + rest
  }
}
