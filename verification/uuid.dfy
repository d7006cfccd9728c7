/** The path-parameter check the profile handler applies before touching the
    table: a UUID written in its canonical 8-4-4-4-12 hexadecimal form. */
module UuidText {
  import opened Http

  /** A parsed UUID, kept as its canonical text in lower case. */
  type Uuid = string

  predicate IsHexDigit(c: char) {
    ('0' <= c <= '9') || ('a' <= c <= 'f') || ('A' <= c <= 'F')
  }

  predicate IsHyphenPosition(i: int) {
    i == 8 || i == 13 || i == 18 || i == 23
  }

  /** Hyphens at offsets 8, 13, 18 and 23 and hex digits everywhere else. */
  predicate IsCanonicalUuid(s: string) {
    |s| == 36 && forall i :: 0 <= i < 36 ==> if IsHyphenPosition(i) then s[i] == '-' else IsHexDigit(s[i])
  }

  function LowerHex(c: char): char {
    if 'A' <= c <= 'F' then (c as int - 'A' as int + 'a' as int) as char else c
  }

  /** A hex digit written as the lower-case spelling of itself. */
  predicate IsLowerHexDigit(c: char) {
    ('0' <= c <= '9') || ('a' <= c <= 'f')
  }

  /** The UUID a string denotes, or nothing when it is not one. The result
      is the canonical spelling: hyphens in place, hex letters in lower case. */
  function ParseUuid(s: string): (r: Option<Uuid>)
    ensures r.Some? <==> IsCanonicalUuid(s)
    ensures r.Some? ==> IsCanonicalUuid(r.value)
    ensures r.Some? ==> forall i :: 0 <= i < 36 && !IsHyphenPosition(i) ==> IsLowerHexDigit(r.value[i])
  {
    if IsCanonicalUuid(s) then Some(seq(36, i requires 0 <= i < 36 => LowerHex(s[i]))) else None
  }

  /** Two spellings that differ only in the case of their hex letters
      denote the same UUID. */
  lemma ParseUuidIgnoresCase(s: string, t: string)
    requires IsCanonicalUuid(s) && IsCanonicalUuid(t)
    requires forall i :: 0 <= i < 36 ==> LowerHex(s[i]) == LowerHex(t[i])
    ensures ParseUuid(s).Some? && ParseUuid(s) == ParseUuid(t)
  {
    assert ParseUuid(s).value == ParseUuid(t).value;
  }

  /** Two UUID texts parse to the same UUID exactly when they agree letter
      for letter once hex letters are lower-cased: different UUIDs never
      collapse into one. */
  lemma ParseUuidSameIff(s: string, t: string)
    requires IsCanonicalUuid(s) && IsCanonicalUuid(t)
    ensures ParseUuid(s) == ParseUuid(t) <==> forall i :: 0 <= i < 36 ==> LowerHex(s[i]) == LowerHex(t[i])
  {
    if ParseUuid(s) == ParseUuid(t) {
      forall i | 0 <= i < 36 ensures LowerHex(s[i]) == LowerHex(t[i]) {
        assert ParseUuid(s).value[i] == ParseUuid(t).value[i];
      }
    } else if forall i :: 0 <= i < 36 ==> LowerHex(s[i]) == LowerHex(t[i]) {
      ParseUuidIgnoresCase(s, t);
    }
  }

  /** The parsed form is a fixed point: it parses to itself, so an id the
      database hands back is found again under its own text. */
  lemma ParseUuidCanonical(s: string)
    requires ParseUuid(s).Some?
    ensures ParseUuid(ParseUuid(s).value) == ParseUuid(s)
  {
    var t := ParseUuid(s).value;
    assert forall i :: 0 <= i < 36 ==> LowerHex(t[i]) == t[i];
    assert ParseUuid(t).value == t;
  }
}
