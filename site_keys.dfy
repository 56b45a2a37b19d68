/**
 * The per-site user-meta keys of the plugin: a fixed prefix followed by the
 * decimal form of the current blog id, as PHP's string concatenation renders
 * an integer.
 */
module SiteKeys {

  import opened Wrappers

  predicate IsDigit(c: char) {
    '0' <= c <= '9'
  }

  predicate AllDigits(s: string) {
    forall i :: 0 <= i < |s| ==> IsDigit(s[i])
  }

  function DigitChar(d: nat): (c: char)
    requires d < 10
    ensures IsDigit(c) && DigitValue(c) == d
  {
    ('0' as int + d) as char
  }

  function DigitValue(c: char): nat
    requires IsDigit(c)
  {
    c as int - '0' as int
  }

  /** PHP's conversion of a non-negative int to a string: decimal digits, no leading zero. */
  function Decimal(n: nat): (s: string)
    ensures |s| >= 1 && AllDigits(s)
    ensures s[0] == '0' <==> n == 0
    decreases n
  {
    if n < 10 then [DigitChar(n)] else Decimal(n / 10) + [DigitChar(n % 10)]
  }

  /** Reads a string of decimal digits back as a number. */
  function DecimalValue(s: string): nat
    requires AllDigits(s)
  {
    if s == [] then 0 else DecimalValue(s[..|s| - 1]) * 10 + DigitValue(s[|s| - 1])
  }

  lemma {:induction false} DecimalRoundTrip(n: nat)
    ensures DecimalValue(Decimal(n)) == n
    decreases n
  {
    var s := Decimal(n);
    if n < 10 {
      assert s[..|s| - 1] == [];
    } else {
      assert s[..|s| - 1] == Decimal(n / 10);
      DecimalRoundTrip(n / 10);
    }
  }

  /** The two per-site attributes the plugin overrides. */
  datatype Field = DisplayName | Description

  function Prefix(f: Field): string {
    match f
    case DisplayName => "ima_display_name_"
    case Description => "ima_description_"
  }

  /** The user-meta key of field `f` on site `siteId`. */
  function FieldKey(f: Field, siteId: nat): (key: string)
    ensures HasPrefix(key, Prefix(f))
    ensures |key| > |Prefix(f)| && AllDigits(key[|Prefix(f)|..])
  {
    Prefix(f) + Decimal(siteId)
  }

  predicate HasPrefix(key: string, p: string) {
    |p| <= |key| && key[..|p|] == p
  }

  /** Recovers the field and the site id from a key; None for a string that is no such key. */
  function ParseFieldKey(key: string): (r: Option<(Field, nat)>)
    ensures r.Some? ==> HasPrefix(key, Prefix(r.value.0))
  {
    var f := if HasPrefix(key, Prefix(DisplayName)) then Some(DisplayName)
             else if HasPrefix(key, Prefix(Description)) then Some(Description)
             else None;
    if f.None? then None
    else
      var rest := key[|Prefix(f.value)|..];
      if rest != [] && AllDigits(rest) then Some((f.value, DecimalValue(rest))) else None
  }

  /** Every key the plugin writes can be read back as the field and site it was built from. */
  lemma FieldKeyRoundTrip(f: Field, siteId: nat)
    ensures ParseFieldKey(FieldKey(f, siteId)) == Some((f, siteId))
  {
    var key := FieldKey(f, siteId);
    assert key[..|Prefix(f)|] == Prefix(f);
    assert key[|Prefix(f)|..] == Decimal(siteId);
    if f == Description {
      assert key[5] != Prefix(DisplayName)[5];
    }
    DecimalRoundTrip(siteId);
  }

  /**
   * Site isolation of the storage keys: two keys coincide only for the same
   * field on the same site, so a display-name key never equals a description key.
   */
  lemma FieldKeyInjective(f: Field, a: nat, g: Field, b: nat)
    ensures FieldKey(f, a) == FieldKey(g, b) <==> f == g && a == b
  {
    if FieldKey(f, a) == FieldKey(g, b) {
      FieldKeyRoundTrip(f, a);
      FieldKeyRoundTrip(g, b);
    }
  }
}
