/**
 * The data-annotation validators of the import records. A property value is
 * given as a `Value`, which records what the runtime type tests of the
 * validators see; `ValidationConfig.NeedRequiredConfig` and
 * `decimal.TryParse` are parameters.
 */
module Validation {
  import opened Wrappers
  import opened Chars

  /**
   * A property value as the validators see it: null, a string, an
   * `ICollection<object>` with its `Count`, an `IEnumerable<object>` that is
   * not such a collection with the number of items it yields, or anything
   * else. A non-null value that is not a string carries the full name of its
   * runtime type.
   */
  datatype Value =
    | Null
    | Str(s: string)
    | Collection(typeName: string, count: nat)
    | Enumerable(typeName: string, length: nat)
    | Other(typeName: string)

  /** The message of the `InvalidCastException` that `(string)value` throws for an object of type `typeName`. */
  function CastMessage(typeName: string): (r: string)
    ensures |r| == |typeName| + 57
    ensures r[..31] == "Unable to cast object of type '" && r[31..31 + |typeName|] == typeName
    ensures r[31 + |typeName|..] == "' to type 'System.String'."
  {
    "Unable to cast object of type '" + typeName + "' to type 'System.String'."
  }

  // ---- ValidSelectOption ----

  /** `^\d{n}` as a run: the first `n` characters are ASCII digits. */
  predicate DigitRun(s: string, n: nat) {
    n <= |s| && forall i :: 0 <= i < n ==> IsDigit(s[i])
  }

  /** `^\d{lo,hi}.*$`, read as the regex engine reads it: some digit count between the bounds, then `.*$`. */
  ghost predicate DigitsThenLine(s: string, lo: nat, hi: nat) {
    exists d :: lo <= d <= hi && DigitRun(s, d) && DotStarMatches(s[d..])
  }

  /** `^\s*$`: white space up to a place where `$` matches. */
  ghost predicate BlankToEnd(s: string) {
    exists p :: 0 <= p <= |s| && AllSpace(s[..p]) && EndAnchor(s, p)
  }

  /** `(^\d{2}.*$)|(^\s*$)`, decided: two digits and no line feed before the last character, or all white space. */
  predicate RequiredPattern(s: string) {
    (DigitRun(s, 2) && NoNewlineBeforeEnd(s[2..])) || AllSpace(s)
  }

  /** `(^\d{1,2}.*$)|(^\s*$)`, decided: a digit and no line feed before the last character, or all white space. */
  predicate OptionalPattern(s: string) {
    (DigitRun(s, 1) && NoNewlineBeforeEnd(s[1..])) || AllSpace(s)
  }

  lemma {:induction false} BlankToEndIsAllSpace(s: string)
    ensures BlankToEnd(s) <==> AllSpace(s)
  {
    if AllSpace(s) {
      assert s[..|s|] == s;
      assert EndAnchor(s, |s|);
    }
    if p :| 0 <= p <= |s| && AllSpace(s[..p]) && EndAnchor(s, p) {
      forall i | 0 <= i < |s| ensures IsSpace(s[i]) {
        if i < p {
          assert s[..p][i] == s[i];
        }
      }
    }
  }

  /** The decided form of the required-mode regex accepts exactly what the regex matches. */
  lemma RequiredPatternIsRegex(s: string)
    ensures RequiredPattern(s) <==> DigitsThenLine(s, 2, 2) || BlankToEnd(s)
  {
    BlankToEndIsAllSpace(s);
    if |s| >= 2 {
      DotStarEnd(s[2..]);
    }
  }

  /**
   * The decided form of the optional-mode regex accepts exactly what the
   * regex matches: taking one digit is enough, since a second digit is not a
   * line feed.
   */
  lemma OptionalPatternIsRegex(s: string)
    ensures OptionalPattern(s) <==> DigitsThenLine(s, 1, 2) || BlankToEnd(s)
  {
    BlankToEndIsAllSpace(s);
    if |s| >= 1 {
      DotStarEnd(s[1..]);
    }
    if |s| >= 2 {
      DotStarEnd(s[2..]);
      if DigitRun(s, 2) && NoNewlineBeforeEnd(s[2..]) {
        assert s[1..][0] == s[1];
        assert NoNewlineBeforeEnd(s[1..]);
      }
    }
  }

  /** Every value the required-mode pattern accepts, the optional-mode pattern accepts too. */
  lemma RequiredIsStricter(s: string)
    requires RequiredPattern(s)
    ensures OptionalPattern(s)
  {
    if DigitRun(s, 2) && NoNewlineBeforeEnd(s[2..]) {
      assert forall i :: 0 <= i < |s[1..]| - 1 ==> s[1..][i] == s[i + 1];
    }
  }

  /** A single-digit option is accepted only when fields are optional. */
  lemma SingleDigitOnlyWhenOptional()
    ensures OptionalPattern("7") && !RequiredPattern("7")
  {
    assert !IsSpace("7"[0]);
  }

  /** Select options on a single line: the two modes differ only in the digit count. */
  lemma SingleLineSelectOption(s: string)
    requires '\n' !in s
    ensures RequiredPattern(s) <==> DigitRun(s, 2) || AllSpace(s)
    ensures OptionalPattern(s) <==> DigitRun(s, 1) || AllSpace(s)
  {
    if |s| >= 1 {
      assert forall i :: 0 <= i < |s[1..]| ==> s[1..][i] == s[i + 1];
    }
    if |s| >= 2 {
      assert forall i :: 0 <= i < |s[2..]| ==> s[2..][i] == s[i + 2];
    }
  }

  /**
   * `ValidSelectOption.IsValid`: null is valid; a string must match the
   * pattern of the current mode; anything else fails the cast to `string`.
   */
  function SelectOptionIsValid(value: Value, needRequired: bool): (r: Result<bool>)
    ensures value.Null? ==> r == Ok(true)
    ensures value.Str? && needRequired ==> r.Ok? && (r.value <==> DigitsThenLine(value.s, 2, 2) || BlankToEnd(value.s))
    ensures value.Str? && !needRequired ==> r.Ok? && (r.value <==> DigitsThenLine(value.s, 1, 2) || BlankToEnd(value.s))
    ensures !value.Null? && !value.Str? ==> r == Err(CastMessage(value.typeName))
  {
    match value
    case Null => Ok(true)
    case Str(s) =>
      RequiredPatternIsRegex(s);
      OptionalPatternIsRegex(s);
      Ok(if needRequired then RequiredPattern(s) else OptionalPattern(s))
    case _ => Err(CastMessage(value.typeName))
  }

  /** `ValidSelectOption`: the attribute keeps the last string it was asked about. */
  class ValidSelectOption {
    var strVal: Option<string>

    constructor ()
      ensures strVal == None
    {
      strVal := None;
    }

    method IsValid(value: Value, needRequired: bool) returns (r: Result<bool>)
      modifies this
      ensures r == SelectOptionIsValid(value, needRequired)
      ensures strVal == if value.Str? then Some(value.s) else old(strVal)
    {
      if value.Null? {
        return Ok(true);
      }
      if !value.Str? {
        return Err(CastMessage(value.typeName));
      }
      strVal := Some(value.s);
      if needRequired {
        r := Ok(RequiredPattern(value.s));
      } else {
        r := Ok(OptionalPattern(value.s));
      }
    }
  }

  function SelectOptionErrorMessage(name: string): (r: string)
    ensures |r| == |name| + 55
    ensures r[..4] == "The " && r[4..4 + |name|] == name
    ensures r[4 + |name|..] == " field could not be parsed to a valid Select Field."
  {
    "The " + name + " field could not be parsed to a valid Select Field."
  }

  // ---- ValidCurrency ----

  /** `Replace("$", "")`: `s` with every dollar sign removed, the rest in order. */
  function RemoveDollars(s: string): (r: string)
    ensures '$' !in r
    ensures '$' !in s ==> r == s
    ensures |r| <= |s|
  {
    if s == [] then []
    else (if s[0] == '$' then [] else [s[0]]) + RemoveDollars(s[1..])
  }

  lemma {:induction false} RemoveDollarsAppend(a: string, b: string)
    ensures RemoveDollars(a + b) == RemoveDollars(a) + RemoveDollars(b)
  {
    if a != [] {
      assert (a + b)[1..] == a[1..] + b;
      RemoveDollarsAppend(a[1..], b);
    } else {
      assert a + b == b;
    }
  }

  /**
   * `ValidCurrency.IsValid`: anything but a string is valid; a string is valid
   * when, without dollar signs and surrounding white space, it is empty or
   * `tryParse` accepts it.
   */
  function CurrencyIsValid(value: Value, tryParse: string -> bool): (r: bool)
    ensures !value.Str? ==> r
    ensures value.Str? && AllSpace(RemoveDollars(value.s)) ==> r
    ensures value.Str? && !AllSpace(RemoveDollars(value.s)) ==> (r <==> tryParse(Trim(RemoveDollars(value.s))))
  {
    match value
    case Str(s) =>
      var stripped := Trim(RemoveDollars(s));
      stripped == "" || tryParse(stripped)
    case _ => true
  }

  /** Dollar signs anywhere in the text make no difference. */
  lemma DollarSignIgnored(a: string, b: string, tryParse: string -> bool)
    ensures CurrencyIsValid(Str(a + "$" + b), tryParse) == CurrencyIsValid(Str(a + b), tryParse)
  {
    DollarRemoved(a, b);
  }

  lemma DollarRemoved(a: string, b: string)
    ensures RemoveDollars(a + "$" + b) == RemoveDollars(a + b)
  {
    var dollar := "$";
    assert RemoveDollars(dollar) == [] by {
      assert dollar[0] == '$' && dollar[1..] == [];
    }
    RemoveDollarsAppend(a + dollar, b);
    RemoveDollarsAppend(a, dollar);
    RemoveDollarsAppend(a, b);
  }

  /** White space around the amount makes no difference. */
  lemma PaddingIgnored(left: string, s: string, right: string, tryParse: string -> bool)
    requires AllSpace(left) && AllSpace(right)
    ensures CurrencyIsValid(Str(left + s + right), tryParse) == CurrencyIsValid(Str(s), tryParse)
  {
    RemoveDollarsAppend(left + s, right);
    RemoveDollarsAppend(left, s);
    NoDollarInSpace(left);
    NoDollarInSpace(right);
    TrimIgnoresPadding(left, RemoveDollars(s), right);
  }

  lemma NoDollarInSpace(s: string)
    requires AllSpace(s)
    ensures '$' !in s
  {
  }

  function CurrencyErrorMessage(name: string): (r: string)
    ensures |r| == |name| + 53
    ensures r[..8] == "Field: [" && r[8..8 + |name|] == name
    ensures r[8 + |name|..] == "] can not be parsed to a valid currency type."
  {
    "Field: [" + name + "] can not be parsed to a valid currency type."
  }

  // ---- HasItems ----

  /** `HasItems.IsValid`: a collection or an enumerable must not be empty; anything else passes. */
  function HasItemsIsValid(value: Value): (r: bool)
    ensures !r <==> (value.Collection? && value.count == 0) || (value.Enumerable? && value.length == 0)
  {
    match value
    case Null => true
    case Collection(_, count) => count > 0
    case Enumerable(_, length) => length > 0
    case _ => true
  }

  // ---- ValidRequired ----

  /** `RequiredAttribute.IsValid` with empty strings not allowed: not null, and not blank if a string. */
  function RequiredAttributeIsValid(value: Value): (r: bool)
    ensures r <==> !value.Null? && !(value.Str? && AllSpace(value.s))
  {
    match value
    case Null => false
    case Str(s) => |Trim(s)| != 0
    case _ => true
  }

  /** `ValidRequired.IsValid`: every value passes unless required fields are configured. */
  function RequiredIsValid(value: Value, needRequired: bool): (r: bool)
    ensures !needRequired ==> r
    ensures needRequired ==> (r <==> !value.Null? && !(value.Str? && AllSpace(value.s)))
  {
    if !needRequired then true else RequiredAttributeIsValid(value)
  }

  /**
   * With required fields configured, a blank select option passes
   * `ValidSelectOption` and fails `ValidRequired`: the first only checks the
   * format, the second reports the missing value.
   */
  lemma BlankSelectOptionIsMissing(s: string)
    requires AllSpace(s)
    ensures SelectOptionIsValid(Str(s), true) == Ok(true)
    ensures !RequiredIsValid(Str(s), true)
  {
  }
}
