/** Identifier syntax: what IsUUID accepts and what NewUUID produces (internal/domain/poll.go). */
module Uuid {
  predicate IsHex(c: char) {
    '0' <= c <= '9' || 'a' <= c <= 'f' || 'A' <= c <= 'F'
  }

  function HexValue(c: char): (n: nat)
    requires IsHex(c)
    ensures n < 16
  {
    if c <= '9' then c as int - '0' as int
    else if c <= 'F' then c as int - 'A' as int + 10
    else c as int - 'a' as int + 10
  }

  function HexDigit(n: nat): (c: char)
    requires n < 16
    ensures IsHex(c) && HexValue(c) == n
  {
    if n < 10 then ('0' as int + n) as char else ('a' as int + n - 10) as char
  }

  /** strings.ReplaceAll(s, "-", "") */
  function RemoveDashes(s: string): string {
    if |s| == 0 then ""
    else if s[0] == '-' then RemoveDashes(s[1..])
    else [s[0]] + RemoveDashes(s[1..])
  }

  /** hex.DecodeString succeeds. */
  predicate HexDecodable(s: string) {
    |s| % 2 == 0 && forall i | 0 <= i < |s| :: IsHex(s[i])
  }

  predicate DashedAt8_13_18_23(s: string)
    requires |s| == 36
  {
    s[8] == '-' && s[13] == '-' && s[18] == '-' && s[23] == '-'
  }

  predicate IsUUID(s: string) {
    |s| == 36 && DashedAt8_13_18_23(s) && HexDecodable(RemoveDashes(s))
  }

  function Dashes(s: string): nat {
    if |s| == 0 then 0 else (if s[0] == '-' then 1 else 0) + Dashes(s[1..])
  }

  /** The 8-4-4-4-12 hexadecimal form. */
  predicate Canonical(s: string) {
    && |s| == 36
    && DashedAt8_13_18_23(s)
    && forall i | 0 <= i < 36 && i != 8 && i != 13 && i != 18 && i != 23 :: IsHex(s[i])
  }

  lemma {:induction false} RemoveDashesKeepsTheRest(s: string)
    ensures |RemoveDashes(s)| == |s| - Dashes(s)
    ensures forall c: char :: c in RemoveDashes(s) <==> c in s && c != '-'
  {
    if |s| > 0 {
      RemoveDashesKeepsTheRest(s[1..]);
      assert s == [s[0]] + s[1..];
    }
  }

  /**
   * IsUUID tests four dash positions, then deletes every dash, so it accepts exactly the strings of
   * hexadecimal digits and dashes of length 36 with dashes at those positions and an even number of
   * dashes in all.
   */
  lemma AcceptedExactly(s: string)
    ensures IsUUID(s) <==>
            |s| == 36 && DashedAt8_13_18_23(s) && Dashes(s) % 2 == 0
            && forall i | 0 <= i < 36 :: s[i] == '-' || IsHex(s[i])
  {
    RemoveDashesKeepsTheRest(s);
    var r := RemoveDashes(s);
    if forall i | 0 <= i < |s| :: s[i] == '-' || IsHex(s[i]) {
      forall i | 0 <= i < |r| ensures IsHex(r[i]) {
        assert r[i] in r && r[i] in s;
      }
    }
    if HexDecodable(r) {
      forall i | 0 <= i < |s| ensures s[i] == '-' || IsHex(s[i]) {
        assert s[i] in s;
        if s[i] != '-' {
          assert s[i] in r;
        }
      }
    }
  }

  lemma {:induction false} DashesConcat(a: string, b: string)
    ensures Dashes(a + b) == Dashes(a) + Dashes(b)
  {
    if |a| == 0 {
      assert a + b == b;
    } else {
      DashesConcat(a[1..], b);
      assert (a + b)[1..] == a[1..] + b;
    }
  }

  lemma {:induction false} NoDashes(s: string)
    ensures Dashes(s) == 0 <==> forall i | 0 <= i < |s| :: s[i] != '-'
  {
    if |s| > 0 {
      NoDashes(s[1..]);
      assert forall i | 1 <= i < |s| :: s[i] == s[1..][i - 1];
      assert forall i | 0 <= i < |s| - 1 :: s[1..][i] == s[i + 1];
    }
  }

  /** Five groups joined by single dashes. */
  function Join(a: string, b: string, c: string, d: string, e: string): (s: string)
    ensures |s| == 4 + |a| + |b| + |c| + |d| + |e|
  {
    a + "-" + b + "-" + c + "-" + d + "-" + e
  }

  lemma DashesOfJoin(a: string, b: string, c: string, d: string, e: string)
    ensures Dashes(Join(a, b, c, d, e)) == 4 + Dashes(a) + Dashes(b) + Dashes(c) + Dashes(d) + Dashes(e)
  {
    DashesConcat(a, "-");
    DashesConcat(a + "-", b);
    DashesConcat(a + "-" + b, "-");
    DashesConcat(a + "-" + b + "-", c);
    DashesConcat(a + "-" + b + "-" + c, "-");
    DashesConcat(a + "-" + b + "-" + c + "-", d);
    DashesConcat(a + "-" + b + "-" + c + "-" + d, "-");
    DashesConcat(a + "-" + b + "-" + c + "-" + d + "-", e);
  }

  lemma JoinOfGroups(s: string)
    requires |s| == 36 && DashedAt8_13_18_23(s)
    ensures s == Join(s[..8], s[9..13], s[14..18], s[19..23], s[24..])
  {
  }

  /** With exactly four dashes acceptance is the canonical form, so the gap is the extra dashes. */
  lemma CanonicalWhenFourDashes(s: string)
    requires |s| == 36 && DashedAt8_13_18_23(s)
    ensures IsUUID(s) && Dashes(s) == 4 <==> Canonical(s)
  {
    AcceptedExactly(s);
    JoinOfGroups(s);
    DashesOfJoin(s[..8], s[9..13], s[14..18], s[19..23], s[24..]);
    NoDashes(s[..8]);
    NoDashes(s[9..13]);
    NoDashes(s[14..18]);
    NoDashes(s[19..23]);
    NoDashes(s[24..]);
    if Dashes(s) == 4 {
      forall i | 0 <= i < 36 && i != 8 && i != 13 && i != 18 && i != 23 ensures s[i] != '-' {
        if i < 8 { assert s[i] == s[..8][i]; }
        else if i < 13 { assert s[i] == s[9..13][i - 9]; }
        else if i < 18 { assert s[i] == s[14..18][i - 14]; }
        else if i < 23 { assert s[i] == s[19..23][i - 19]; }
        else { assert s[i] == s[24..][i - 24]; }
      }
    }
  }

  /** A string that is no UUID but is accepted: its first two digits are dashes. */
  lemma ExtraDashesAreAccepted(s: string)
    requires s == seq(36, i => if i in {0, 1, 8, 13, 18, 23} then '-' else '0')
    ensures IsUUID(s) && !Canonical(s)
  {
    JoinOfGroups(s);
    DashesOfJoin(s[..8], s[9..13], s[14..18], s[19..23], s[24..]);
    assert s[..8] == ['-'] + (['-'] + s[2..8]);
    DashesConcat(['-'], ['-'] + s[2..8]);
    DashesConcat(['-'], s[2..8]);
    NoDashes(s[2..8]);
    NoDashes(s[9..13]);
    NoDashes(s[14..18]);
    NoDashes(s[19..23]);
    NoDashes(s[24..]);
    AcceptedExactly(s);
    assert s[0] == '-';
  }

  // ----- NewUUID -----

  predicate IsByte(n: int) {
    0 <= n < 256
  }

  /** hex.EncodeToString */
  function Hex(bytes: seq<int>): (s: string)
    requires forall i | 0 <= i < |bytes| :: IsByte(bytes[i])
    ensures |s| == 2 * |bytes|
    ensures forall i | 0 <= i < |s| :: IsHex(s[i])
  {
    if |bytes| == 0 then ""
    else
      assert IsByte(bytes[0]);
      [HexDigit(bytes[0] / 16), HexDigit(bytes[0] % 16)] + Hex(bytes[1..])
  }

  function Unhex(s: string): (bytes: seq<int>)
    requires HexDecodable(s)
  {
    if |s| == 0 then [] else [16 * HexValue(s[0]) + HexValue(s[1])] + Unhex(s[2..])
  }

  lemma {:induction false} HexRoundTrip(bytes: seq<int>)
    requires forall i | 0 <= i < |bytes| :: IsByte(bytes[i])
    ensures Unhex(Hex(bytes)) == bytes
  {
    if |bytes| > 0 {
      HexRoundTrip(bytes[1..]);
      assert Hex(bytes)[2..] == Hex(bytes[1..]);
    }
  }

  lemma {:induction false} HexConcat(a: seq<int>, b: seq<int>)
    requires forall i | 0 <= i < |a| :: IsByte(a[i])
    requires forall i | 0 <= i < |b| :: IsByte(b[i])
    ensures Hex(a + b) == Hex(a) + Hex(b)
  {
    if |a| == 0 {
      assert a + b == b;
    } else {
      HexConcat(a[1..], b);
      assert (a + b)[1..] == a[1..] + b;
    }
  }

  lemma {:induction false} RemoveDashesConcat(a: string, b: string)
    ensures RemoveDashes(a + b) == RemoveDashes(a) + RemoveDashes(b)
  {
    if |a| == 0 {
      assert a + b == b;
    } else {
      RemoveDashesConcat(a[1..], b);
      assert (a + b)[0] == a[0] && (a + b)[1..] == a[1..] + b;
      if a[0] != '-' {
        assert RemoveDashes(a) + RemoveDashes(b) == [a[0]] + (RemoveDashes(a[1..]) + RemoveDashes(b));
      }
    }
  }

  lemma {:induction false} RemoveNoDashes(s: string)
    requires forall i | 0 <= i < |s| :: s[i] != '-'
    ensures RemoveDashes(s) == s
  {
    if |s| > 0 {
      RemoveNoDashes(s[1..]);
    }
  }

  function Dashed(b: seq<int>): (s: string)
    requires |b| == 16 && forall i | 0 <= i < 16 :: IsByte(b[i])
    ensures |s| == 36
  {
    Join(Hex(b[0..4]), Hex(b[4..6]), Hex(b[6..8]), Hex(b[8..10]), Hex(b[10..16]))
  }

  lemma RemoveTrailingDash(before: string)
    ensures RemoveDashes(before + "-") == RemoveDashes(before)
  {
    RemoveDashesConcat(before, "-");
    assert RemoveDashes("-") == [];
  }

  lemma RemoveDashesOfGroup(before: string, group: string)
    requires forall i | 0 <= i < |group| :: group[i] != '-'
    ensures RemoveDashes(before + "-" + group) == RemoveDashes(before) + group
  {
    RemoveDashesConcat(before + "-", group);
    RemoveTrailingDash(before);
    RemoveNoDashes(group);
  }

  lemma RemoveDashesOfJoin(a: string, b: string, c: string, d: string, e: string)
    requires forall i | 0 <= i < |a| :: a[i] != '-'
    requires forall i | 0 <= i < |b| :: b[i] != '-'
    requires forall i | 0 <= i < |c| :: c[i] != '-'
    requires forall i | 0 <= i < |d| :: d[i] != '-'
    requires forall i | 0 <= i < |e| :: e[i] != '-'
    ensures RemoveDashes(Join(a, b, c, d, e)) == a + b + c + d + e
  {
    RemoveNoDashes(a);
    RemoveDashesOfGroup(a, b);
    RemoveDashesOfGroup(a + "-" + b, c);
    RemoveDashesOfGroup(a + "-" + b + "-" + c, d);
    RemoveDashesOfGroup(a + "-" + b + "-" + c + "-" + d, e);
  }

  lemma HexOfSlices(b: seq<int>, i: nat, j: nat)
    requires i <= j <= |b| && forall k | 0 <= k < |b| :: IsByte(b[k])
    ensures Hex(b[0..i]) + Hex(b[i..j]) == Hex(b[0..j])
  {
    HexConcat(b[0..i], b[i..j]);
    assert b[0..i] + b[i..j] == b[0..j];
  }

  lemma HexOfGroups(b: seq<int>)
    requires |b| == 16 && forall i | 0 <= i < 16 :: IsByte(b[i])
    ensures Hex(b[0..4]) + Hex(b[4..6]) + Hex(b[6..8]) + Hex(b[8..10]) + Hex(b[10..16]) == Hex(b)
  {
    HexOfSlices(b, 4, 6);
    HexOfSlices(b, 6, 8);
    HexOfSlices(b, 8, 10);
    HexOfSlices(b, 10, 16);
    assert b[0..16] == b;
  }

  /** Formatting loses nothing: deleting the dashes and decoding gives back the sixteen bytes. */
  lemma DashedRoundTrip(b: seq<int>)
    requires |b| == 16 && forall i | 0 <= i < 16 :: IsByte(b[i])
    ensures Canonical(Dashed(b)) && IsUUID(Dashed(b))
    ensures Unhex(RemoveDashes(Dashed(b))) == b
  {
    RemoveDashesOfJoin(Hex(b[0..4]), Hex(b[4..6]), Hex(b[6..8]), Hex(b[8..10]), Hex(b[10..16]));
    HexOfGroups(b);
    HexRoundTrip(b);
  }

  /**
   * Formats sixteen random bytes with version 4 and the RFC 4122 variant. Every bit outside those
   * six survives, so two draws that differ elsewhere give different identifiers.
   */
  method NewUUID(random: seq<int>) returns (s: string)
    requires |random| == 16 && forall i | 0 <= i < 16 :: IsByte(random[i])
    ensures Canonical(s) && IsUUID(s)
    ensures s[14] == '4' && s[19] in {'8', '9', 'a', 'b'}
    ensures Unhex(RemoveDashes(s)) == random[6 := random[6] % 16 + 0x40][8 := random[8] % 64 + 0x80]
  {
    var b := new int[16](i requires 0 <= i < 16 => random[i]);
    b[6] := b[6] % 16 + 0x40;  // (b & 0x0f) | 0x40
    b[8] := b[8] % 64 + 0x80;  // (b & 0x3f) | 0x80
    assert b[..] == random[6 := random[6] % 16 + 0x40][8 := random[8] % 64 + 0x80];
    s := Dashed(b[..]);
    DashedRoundTrip(b[..]);
    VersionDigits(b[..]);
  }

  lemma VersionDigits(b: seq<int>)
    requires |b| == 16 && forall i | 0 <= i < 16 :: IsByte(b[i])
    ensures Dashed(b)[14] == HexDigit(b[6] / 16) && Dashed(b)[19] == HexDigit(b[8] / 16)
  {
    assert Dashed(b)[14] == Hex(b[6..8])[0];
    assert Dashed(b)[19] == Hex(b[8..10])[0];
  }
}
