/** Validated fields: a contact's name and its phone numbers. */
module Fields {
  import opened Errors

  // ---------------------------------------------------------------------------
  // Whitespace and trimming (Python's str.strip() with no argument)
  // ---------------------------------------------------------------------------

  /** The characters for which Python's str.isspace() holds. */
  predicate IsSpace(c: char)
  {
    ('\t' <= c <= '\r') || ('\U{001c}' <= c <= ' ') || c == '\U{0085}' || c == '\U{00a0}'
    || c == '\U{1680}' || ('\U{2000}' <= c <= '\U{200a}') || c == '\U{2028}' || c == '\U{2029}'
    || c == '\U{202f}' || c == '\U{205f}' || c == '\U{3000}'
  }

  predicate AllSpace(s: string)
  {
    forall k :: 0 <= k < |s| ==> IsSpace(s[k])
  }

  /** The index of the first non-space at or after `i` (`|s|` if none): the
      left scan of str.strip(). */
  function SkipSpaces(s: string, i: nat): (j: nat)
    requires i <= |s|
    ensures i <= j <= |s|
    decreases |s| - i
  {
    if i < |s| && IsSpace(s[i]) then SkipSpaces(s, i + 1) else i
  }

  /** The index just past the last non-space in `s[lo..hi]` (`lo` if none):
      the right scan of str.strip(), which stops at the left scan's result. */
  function SkipSpacesBack(s: string, lo: nat, hi: nat): (j: nat)
    requires lo <= hi <= |s|
    ensures lo <= j <= hi
    decreases hi
  {
    if hi > lo && IsSpace(s[hi - 1]) then SkipSpacesBack(s, lo, hi - 1) else hi
  }

  /** Python's `s.strip()`. */
  function Trim(s: string): string
  {
    var i := SkipSpaces(s, 0);
    s[i..SkipSpacesBack(s, i, |s|)]
  }

  /** The left scan passes over spaces only and stops at a non-space or the end. */
  lemma {:induction false} SkipSpacesShape(s: string, i: nat)
    requires i <= |s|
    ensures var j := SkipSpaces(s, i);
      (forall k :: i <= k < j ==> IsSpace(s[k])) && (j == |s| || !IsSpace(s[j]))
    decreases |s| - i
  {
    if i < |s| && IsSpace(s[i]) {
      SkipSpacesShape(s, i + 1);
    }
  }

  /** The right scan passes over spaces only and stops after a non-space or at `lo`. */
  lemma {:induction false} SkipSpacesBackShape(s: string, lo: nat, hi: nat)
    requires lo <= hi <= |s|
    ensures var j := SkipSpacesBack(s, lo, hi);
      (forall k :: j <= k < hi ==> IsSpace(s[k])) && (j == lo || !IsSpace(s[j - 1]))
    decreases hi
  {
    if hi > lo && IsSpace(s[hi - 1]) {
      SkipSpacesBackShape(s, lo, hi - 1);
    }
  }

  /** Trim removes whitespace only, and only at the two ends: what it keeps is a
      contiguous slice of the input that starts and ends with a non-space. */
  lemma TrimIsInfix(s: string)
    ensures var i := SkipSpaces(s, 0); var t := Trim(s);
      i + |t| <= |s| && t == s[i..i + |t|]
      && AllSpace(s[..i]) && AllSpace(s[i + |t|..])
      && (t == [] || (!IsSpace(t[0]) && !IsSpace(t[|t| - 1])))
  {
    var i := SkipSpaces(s, 0);
    var j := SkipSpacesBack(s, i, |s|);
    SkipSpacesShape(s, 0);
    SkipSpacesBackShape(s, i, |s|);
    assert forall k :: 0 <= k < i ==> s[..i][k] == s[k];
    assert forall k :: 0 <= k < |s| - j ==> s[j..][k] == s[j + k];
  }

  /** Conversely, whitespace around a slice that does not start or end with
      whitespace is exactly what Trim removes. */
  lemma TrimPadded(a: string, d: string, b: string)
    requires AllSpace(a) && AllSpace(b)
    requires d == [] || (!IsSpace(d[0]) && !IsSpace(d[|d| - 1]))
    ensures Trim(a + d + b) == d
  {
    var s := a + d + b;
    var i := SkipSpaces(s, 0);
    var j := SkipSpacesBack(s, i, |s|);
    SkipSpacesShape(s, 0);
    SkipSpacesBackShape(s, i, |s|);
    assert forall k :: 0 <= k < |a| ==> s[k] == a[k];
    assert forall k :: |a| + |d| <= k < |s| ==> s[k] == b[k - |a| - |d|];
    if d == [] {
      assert i == |s|;
    } else {
      assert s[|a|] == d[0] && s[|a| + |d| - 1] == d[|d| - 1];
      assert i == |a|;
      assert j == |a| + |d|;
      assert s[i..j] == d;
    }
  }

  // ---------------------------------------------------------------------------
  // Validation predicates
  // ---------------------------------------------------------------------------

  /** Python's `re.fullmatch(r'[0-9]{10}', t)`: exactly ten ASCII digits. */
  predicate IsTenDigits(t: string)
  {
    |t| == 10 && forall k :: 0 <= k < |t| ==> '0' <= t[k] <= '9'
  }

  /** The check the phone setter applies: ten digits once surrounding
      whitespace is stripped. */
  predicate ValidPhone(s: string)
  {
    IsTenDigits(Trim(s))
  }

  predicate ValidName(s: string)
  {
    |s| > 0
  }

  /** The value of a Name field: never empty. */
  type Name = s: string | ValidName(s) witness "?"

  /** A valid phone is ten digits with (possibly) whitespace around them, and
      the digits are exactly what Trim returns. */
  lemma ValidPhoneIsPaddedDigits(s: string)
    requires ValidPhone(s)
    ensures var i := SkipSpaces(s, 0);
      i + 10 <= |s| && s[i..i + 10] == Trim(s)
      && AllSpace(s[..i]) && IsTenDigits(s[i..i + 10]) && AllSpace(s[i + 10..])
  {
    TrimIsInfix(s);
  }

  /** Ten digits with any whitespace around them pass the phone check. */
  lemma PaddedDigitsAreValidPhone(a: string, d: string, b: string)
    requires AllSpace(a) && IsTenDigits(d) && AllSpace(b)
    ensures ValidPhone(a + d + b) && Trim(a + d + b) == d
  {
    TrimPadded(a, d, b);
  }

  /** A valid phone holds only digits and whitespace, so never a ';'. */
  lemma ValidPhoneHasNoSemicolon(s: string)
    requires ValidPhone(s)
    ensures ';' !in s
  {
    ValidPhoneIsPaddedDigits(s);
    var i := SkipSpaces(s, 0);
    forall k | 0 <= k < |s| ensures s[k] != ';' {
      if k < i {
        assert s[..i][k] == s[k];
      } else if k < i + 10 {
        assert s[i..i + 10][k - i] == s[k];
      } else {
        assert s[i + 10..][k - i - 10] == s[k];
      }
    }
  }

  // ---------------------------------------------------------------------------
  // Validators
  // ---------------------------------------------------------------------------

  /** Name.__validate_name: the empty string is rejected with a ValueError,
      anything else is kept as it is. */
  function ValidateName(s: string): (r: Result<Name>)
    ensures r.Ok? <==> |s| > 0
    ensures r.Ok? ==> r.value == s
    ensures r.Err? ==> r.error == ValueError
  {
    if |s| == 0 then Err(ValueError) else Ok(s)
  }

  /** Phone.__validate_number: the check is made on the trimmed string, but
      on success the ORIGINAL string is returned, whitespace and all. */
  function ValidateNumber(s: string): (r: Result<string>)
    ensures r.Ok? <==> IsTenDigits(Trim(s))
    ensures r.Ok? ==> r.value == s
    ensures r.Err? ==> r.error == ValueError
  {
    if IsTenDigits(Trim(s)) then Ok(s) else Err(ValueError)
  }

  /** The check is a gate, not a normaliser: a padded number passes and comes
      back with its padding. */
  lemma PaddedNumberKeptVerbatim()
    ensures ValidateNumber(" 0123456789\t") == Ok(" 0123456789\t")
    ensures Trim(" 0123456789\t") == "0123456789" != " 0123456789\t"
  {
    PaddedDigitsAreValidPhone(" ", "0123456789", "\t");
    assert " " + "0123456789" + "\t" == " 0123456789\t";
  }

  // ---------------------------------------------------------------------------
  // Phone
  // ---------------------------------------------------------------------------

  /** A phone field. Its value is validated on every assignment. */
  class Phone {
    var value: string

    ghost predicate Valid()
      reads this
    {
      ValidPhone(value)
    }

    constructor (s: string)
      requires ValidPhone(s)
      ensures Valid() && value == s
    {
      value := s;
    }

    /** The `value` property setter: a value that fails the check raises a
        ValueError and leaves the stored value as it was. */
    method SetValue(s: string) returns (res: Result<()>)
      modifies this
      ensures res.Ok? <==> ValidPhone(s)
      ensures res.Err? ==> res.error == ValueError
      ensures value == if ValidPhone(s) then s else old(value)
      ensures old(Valid()) ==> Valid()
    {
      var checked := ValidateNumber(s);
      if checked.Err? {
        return Err(checked.error);
      }
      value := checked.value;
      return Ok(());
    }
  }

  /** `Phone(s)`: construction runs the setter, so it raises a ValueError for
      an invalid `s` and otherwise stores `s` untrimmed in a new object. */
  method NewPhone(s: string) returns (res: Result<Phone>)
    ensures res.Ok? <==> ValidPhone(s)
    ensures res.Err? ==> res.error == ValueError
    ensures res.Ok? ==> fresh(res.value) && res.value.value == s && res.value.Valid()
  {
    var checked := ValidateNumber(s);
    if checked.Err? {
      return Err(checked.error);
    }
    var p := new Phone(checked.value);
    return Ok(p);
  }
}
