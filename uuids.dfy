/**
 * Foundation's `UUID` as its `uuidString`: 36 characters, hyphens at offsets 8, 13, 18 and 23,
 * upper-case hexadecimal digits elsewhere. `UUID(uuidString:)` accepts either case.
 */
module Uuids {
  import opened Wrappers

  predicate IsHyphenOffset(i: int) {
    i == 8 || i == 13 || i == 18 || i == 23
  }

  predicate IsHexDigit(c: char) {
    '0' <= c <= '9' || 'a' <= c <= 'f' || 'A' <= c <= 'F'
  }

  /** The text `UUID(uuidString:)` accepts. */
  predicate IsUuidText(s: string) {
    |s| == 36 && forall i :: 0 <= i < 36 ==> if IsHyphenOffset(i) then s[i] == '-' else IsHexDigit(s[i])
  }

  /** The text `uuidString` produces. */
  predicate IsCanonical(s: string) {
    IsUuidText(s) && forall i :: 0 <= i < |s| ==> !('a' <= s[i] <= 'f')
  }

  /** The nil UUID, `00000000-0000-0000-0000-000000000000`, witnesses the type. */
  type Uuid = s: string | IsCanonical(s) witness seq(36, i => if IsHyphenOffset(i) then '-' else '0')

  function UpperHex(c: char): (u: char)
    ensures !('a' <= u <= 'f')
  {
    if 'a' <= c <= 'f' then (c as int - 32) as char else c
  }

  /** `UUID(uuidString: s)`: `None` exactly when `s` is not UUID text; otherwise `s` with upper-case digits. */
  function ParseUuid(s: string): (r: Option<Uuid>)
    ensures r.Some? <==> IsUuidText(s)
    ensures r.Some? ==> |r.value| == |s| && forall i :: 0 <= i < |s| ==> r.value[i] == UpperHex(s[i])
  {
    if IsUuidText(s) then
      var u := seq(36, i requires 0 <= i < 36 => UpperHex(s[i]));
      assert IsCanonical(u);
      Some(u)
    else None
  }

  /** Decoding the `uuidString` of a UUID gives back that UUID. */
  lemma ParseUuidString(u: Uuid)
    ensures ParseUuid(u) == Some(u)
  {
    var r := ParseUuid(u).value;
    assert r == u;
  }
}
