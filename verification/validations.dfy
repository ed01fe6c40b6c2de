/**
 The null guards of src/backend/utils/validations/api_validations.py, and the
 validators the models attach to their text fields: a maximum length and the
 regular expression `^[A-Z a-z Ñ ñ . ' _]+$` (LATIN_SPECIAL_CHAR_REGEX).
 */
module Validations {

  import opened Wrappers
  import opened Errors
  import opened Text
  import opened Constants

  /** `is_null`: raises InternalServerError, with its default detail, exactly when the value is None. */
  function IsNull<T>(v: Option<T>): (r: Result<()>)
    ensures r.Err? <==> v.None?
    ensures r.Err? ==> r.failure == Default(InternalServerError)
  {
    if v.None? then Err(Default(InternalServerError)) else Ok(())
  }

  /** `is_null_or_empty_string`: raises InternalServerError exactly when the value is None or "". */
  function IsNullOrEmptyString(s: Option<string>): (r: Result<()>)
    ensures r.Err? <==> (s.None? || s.value == EMPTY_CHAR)
    ensures r.Err? ==> r.failure == Default(InternalServerError)
  {
    if s.None? || s.value == EMPTY_CHAR then Err(Default(InternalServerError)) else Ok(())
  }

  /** Only the exact empty string is refused: any non-empty text, blanks included, passes. */
  lemma BlankTextPassesEmptyCheck(s: string)
    requires |s| > 0
    ensures IsNullOrEmptyString(Some(s)) == Ok(())
  {
  }

  /**
   The character class of LATIN_SPECIAL_CHAR_REGEX. The blanks between the
   ranges in the source's class are literal spaces, so a space belongs to it.
   */
  predicate LatinChar(c: char)
  {
    || 'A' <= c <= 'Z'
    || 'a' <= c <= 'z'
    || c == ' ' || c == 'Ñ' || c == 'ñ' || c == '.' || c == '\'' || c == '_'
  }

  predicate AllLatin(s: string)
  {
    forall i :: 0 <= i < |s| ==> LatinChar(s[i])
  }

  /**
   When Python's `re.search` finds LATIN_SPECIAL_CHAR_REGEX in `s`. Python's `$`
   matches at the very end and also just before a newline that ends the string,
   so one trailing "\n" after a non-empty run of class characters is accepted.
   */
  predicate LatinRegexMatches(s: string)
  {
    || (|s| > 0 && AllLatin(s))
    || (|s| > 1 && s[|s| - 1] == '\n' && AllLatin(s[..|s| - 1]))
  }

  /**
   The regular-expression engine on this pattern: `^` pins the start, the
   greedy `[...]+` consumes the longest run of class characters, then `$`
   must hold where the run stops.
   */
  method MatchLatinRegex(s: string) returns (matched: bool)
    ensures matched <==> LatinRegexMatches(s)
  {
    var k := 0;
    while k < |s| && LatinChar(s[k])
      invariant 0 <= k <= |s|
      invariant AllLatin(s[..k])
    {
      k := k + 1;
    }
    if k == |s| {
      assert s[..k] == s;
    } else {
      assert !LatinChar(s[k]);
      assert !AllLatin(s);
      if k < |s| - 1 {
        assert s[..|s| - 1][k] == s[k];
      } else {
        assert s[..|s| - 1] == s[..k];
      }
    }
    matched := k > 0 && (k == |s| || (k == |s| - 1 && s[k] == '\n'));
  }

  /** A '!' or a digit anywhere makes the pattern fail, and so does the empty string. */
  lemma RegexRejects(s: string, i: nat)
    requires i < |s|
    requires s[i] == '!' || IsDigit(s[i])
    ensures !LatinRegexMatches(s)
    ensures !LatinRegexMatches("")
  {
    assert !LatinChar(s[i]);
    if |s| > 1 && i < |s| - 1 {
      assert s[..|s| - 1][i] == s[i];
    }
  }

  const NAME_MAX_LENGTH: nat := 32
  const DESCRIPTION_MAX_LENGTH: nat := 128
  const EXTERNAL_CLIENT_MAX_LENGTH: nat := 128

  /**
   A nullable text field with a `max_length` and the regex validator: a null
   value is not validated; any other value must fit and match.
   */
  function FieldValid(v: Option<string>, maxLength: nat): bool
  {
    v.None? || (|v.value| <= maxLength && LatinRegexMatches(v.value))
  }

  /** A valid non-null field value is 1..maxLength characters, all from the class except possibly a final newline. */
  lemma FieldValidMeans(s: string, maxLength: nat)
    ensures FieldValid(Some(s), maxLength) <==>
      && 0 < |s| <= maxLength
      && (forall i :: 0 <= i < |s| - 1 ==> LatinChar(s[i]))
      && (LatinChar(s[|s| - 1]) || (|s| > 1 && s[|s| - 1] == '\n'))
  {
    if LatinRegexMatches(s) && !AllLatin(s) {
      assert forall i :: 0 <= i < |s| - 1 ==> s[..|s| - 1][i] == s[i];
    }
  }

  /** Product.name: at most 32 characters, matching the regex. */
  function ProductNameValid(v: Option<string>): bool
  {
    FieldValid(v, NAME_MAX_LENGTH)
  }

  /** Product.description: at most 128 characters, matching the regex. */
  function DescriptionValid(v: Option<string>): bool
  {
    FieldValid(v, DESCRIPTION_MAX_LENGTH)
  }

  /** Order.external_client: at most 128 characters, matching the regex. */
  function ExternalClientValid(v: Option<string>): bool
  {
    FieldValid(v, EXTERNAL_CLIENT_MAX_LENGTH)
  }

  /** The length bounds are strict: a 33-character name is refused even when every character is in the class. */
  lemma NameLengthBound(s: string)
    requires |s| == NAME_MAX_LENGTH + 1
    ensures !ProductNameValid(Some(s))
    ensures AllLatin(s) ==> DescriptionValid(Some(s)) && ExternalClientValid(Some(s))
  {
  }
}
