// CountryCodeNormalizer: a country code reduced to its trimmed, lower-cased
// form; null and blank codes become the empty string and the non-ISO code
// "uk" becomes "gb".

module CountryCodes {
  import opened Wrappers
  import opened JavaStrings

  function Normalize(countryCode: Option<string>): (r: string)
    ensures IsBlankOrNull(countryCode) ==> r == ""
    ensures countryCode.Some? ==> |r| <= |countryCode.value|
  {
    if IsBlankOrNull(countryCode) then ""
    else
      var code := ToLower(Trim(countryCode.value));
      if code == "uk" then "gb" else code
  }

  predicate IsLowerCase(s: string)
  {
    forall i :: 0 <= i < |s| ==> !('A' <= s[i] <= 'Z')
  }

  /** A normalized code has no surrounding blanks and no upper-case letters. */
  lemma NormalizedShape(countryCode: Option<string>)
    ensures Trim(Normalize(countryCode)) == Normalize(countryCode)
    ensures IsLowerCase(Normalize(countryCode))
    ensures Normalize(countryCode) != "uk"
  {
    if !IsBlankOrNull(countryCode) {
      var t := Trim(countryCode.value);
      LowerKeepsTrim(t);
      TrimIdempotent(countryCode.value);
      assert Trim(ToLower(t)) == ToLower(t);
      if ToLower(t) == "uk" {
        assert Trim("gb") == "gb" by {
          assert TrimFrom("gb", 0) == 0;
          assert TrimTo("gb", 0, 2) == 2;
        }
      }
    } else {
      assert Trim("") == "";
    }
  }

  /** A trimmed string is blank only when it is empty. */
  lemma TrimmedBlankIsEmpty(s: string)
    requires Trim(s) == s && IsBlank(s)
    ensures s == ""
  {
    var i, j := TrimBounds(s);
  }

  /** Normalizing a normalized code changes nothing. */
  lemma NormalizeIdempotent(countryCode: Option<string>)
    ensures Normalize(Some(Normalize(countryCode))) == Normalize(countryCode)
  {
    var n := Normalize(countryCode);
    NormalizedShape(countryCode);
    if IsBlank(n) {
      TrimmedBlankIsEmpty(n);
    } else {
      assert ToLower(n) == n;
    }
  }

  /** The pinned cases: null and blank give "", " PL" and "pl " give "pl",
      " UK" gives "gb". */
  lemma NormalizeExamples()
    ensures Normalize(None) == ""
    ensures Normalize(Some("  ")) == ""
    ensures Normalize(Some(" PL")) == "pl"
    ensures Normalize(Some("pl ")) == "pl"
    ensures Normalize(Some(" UK")) == "gb"
  {
    assert IsBlank("  ");
    assert !IsBlank(" PL") by { assert " PL"[1] !in Whitespace; }
    assert !IsBlank("pl ") by { assert "pl "[0] !in Whitespace; }
    assert !IsBlank(" UK") by { assert " UK"[1] !in Whitespace; }
    assert Trim(" PL") == "PL" by {
      assert TrimFrom(" PL", 0) == 1;
      assert TrimTo(" PL", 1, 3) == 3;
    }
    assert Trim("pl ") == "pl" by {
      assert TrimFrom("pl ", 0) == 0;
      assert TrimTo("pl ", 0, 3) == 2;
    }
    assert Trim(" UK") == "UK" by {
      assert TrimFrom(" UK", 0) == 1;
      assert TrimTo(" UK", 1, 3) == 3;
    }
    assert ToLower("PL") == "pl";
    assert ToLower("pl") == "pl";
    assert ToLower("UK") == "uk";
  }
}
