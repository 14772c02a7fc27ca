/** Requirement version pins (pkg/gate/requirement_traceability.go). */
module Versions {
  import opened Seqs
  import opened Findings
  import Paths

  predicate Digit(c: char) {
    '0' <= c <= '9'
  }

  function DigitValue(c: char): nat
    requires Digit(c)
  {
    c as int - '0' as int
  }

  function Value(s: string): nat
    requires forall i :: 0 <= i < |s| ==> Digit(s[i])
  {
    if s == "" then 0 else Value(s[..|s| - 1]) * 10 + DigitValue(s[|s| - 1])
  }

  predicate Numeral(s: string) {
    s != "" && forall i :: 0 <= i < |s| ==> Digit(s[i])
  }

  function Parsed(s: string): Option<nat> {
    if Numeral(s) then Some(Value(s)) else None
  }

  /** parseNonNegativeInt */
  method ParseNonNegativeInt(s: string) returns (r: Option<nat>)
    ensures r == Parsed(s)
  {
    if s == "" {
      return None;
    }
    var n: nat := 0;
    for i := 0 to |s|
      invariant forall j :: 0 <= j < i ==> Digit(s[j])
      invariant n == Value(s[..i])
    {
      if !Digit(s[i]) {
        return None;
      }
      assert s[..i + 1][..i] == s[..i];
      n := n * 10 + DigitValue(s[i]);
    }
    assert s[..|s|] == s;
    r := Some(n);
  }

  datatype MajorMinor = MajorMinor(major: nat, minor: nat)

  function Release(version: string): Option<MajorMinor> {
    var parts := Paths.Split(version, '.');
    if |parts| == 3 && Numeral(parts[0]) && Numeral(parts[1]) && Numeral(parts[2])
    then Some(MajorMinor(Value(parts[0]), Value(parts[1])))
    else None
  }

  /** semverMajorMinor */
  method SemverMajorMinor(version: string) returns (r: Option<MajorMinor>)
    ensures r == Release(version)
  {
    var parts := Paths.Split(version, '.');
    if |parts| != 3 {
      return None;
    }
    var major := ParseNonNegativeInt(parts[0]);
    var minor := ParseNonNegativeInt(parts[1]);
    if major.None? || minor.None? {
      return None;
    }
    var patch := ParseNonNegativeInt(parts[2]);
    if patch.None? {
      return None;
    }
    r := Some(MajorMinor(major.value, minor.value));
  }

  /** StalePinVerdict */
  function BumpOf(pin: string, current: string): Bump {
    if pin == current then SameVersion
    else
      var p, c := Release(pin), Release(current);
      if p.None? || c.None? then UnknownBump
      else if p.value.major != c.value.major then MajorBump
      else if p.value.minor != c.value.minor then MinorBump
      else PatchBump
  }

  predicate StaleBump(b: Bump) {
    b.MajorBump? || b.MinorBump?
  }

  predicate Stale(pin: string, current: string) {
    StaleBump(BumpOf(pin, current))
  }

  method StalePinVerdict(pin: string, current: string) returns (bump: Bump, stale: bool)
    ensures bump == BumpOf(pin, current) && stale == Stale(pin, current)
  {
    if pin == current {
      return SameVersion, false;
    }
    var p := SemverMajorMinor(pin);
    var c := SemverMajorMinor(current);
    if p.None? || c.None? {
      return UnknownBump, false;
    }
    if p.value.major != c.value.major {
      return MajorBump, true;
    }
    if p.value.minor != c.value.minor {
      return MinorBump, true;
    }
    return PatchBump, false;
  }

  /** A pin is stale exactly when both versions parse and name different releases, so
      staleness does not depend on which of the two moved. */
  lemma StaleMeaning(pin: string, current: string)
    ensures Stale(pin, current) <==>
      Release(pin).Some? && Release(current).Some? && Release(pin) != Release(current)
    ensures Stale(pin, current) == Stale(current, pin)
  {
  }

  // ---------------------------------------------------------------- versions as text

  function DecimalDigit(d: nat): char
    requires d < 10
  {
    "0123456789"[d]
  }

  /** The decimal numeral of a number. */
  function Decimal(n: nat): string {
    if n < 10 then [DecimalDigit(n)] else Decimal(n / 10) + [DecimalDigit(n % 10)]
  }

  lemma DigitMeaning(c: char)
    ensures Digit(c) <==> c in "0123456789"
    ensures forall d: nat :: d < 10 && c == DecimalDigit(d) ==> Digit(c) && DigitValue(c) == d
  {
    if Digit(c) {
      assert c == "0123456789"[c as int - 48];
    }
  }

  /** A decimal numeral reads back as its number. */
  lemma {:induction false} DecimalReads(n: nat)
    ensures Numeral(Decimal(n)) && Value(Decimal(n)) == n
  {
    var s := Decimal(n);
    DigitMeaning(s[|s| - 1]);
    if n < 10 {
      assert s[..0] == "";
    } else {
      DecimalReads(n / 10);
      assert s[..|s| - 1] == Decimal(n / 10);
    }
  }

  function VersionText(major: nat, minor: nat, patch: nat): string {
    Decimal(major) + "." + Decimal(minor) + "." + Decimal(patch)
  }

  lemma DotFree(s: string)
    requires Numeral(s)
    ensures '.' !in s
  {
  }

  lemma ReleaseOfText(major: nat, minor: nat, patch: nat)
    ensures Release(VersionText(major, minor, patch)) == Some(MajorMinor(major, minor))
  {
    var a, b, c := Decimal(major), Decimal(minor), Decimal(patch);
    DecimalReads(major);
    DecimalReads(minor);
    DecimalReads(patch);
    DotFree(a);
    DotFree(b);
    DotFree(c);
    assert VersionText(major, minor, patch) == a + "." + (b + "." + c);
    Paths.SplitAt(a, b + "." + c, '.');
    Paths.SplitAt(b, c, '.');
    Paths.SplitAt(c, "", '.');
  }

  /** Which part of a version moved, and that only major and minor moves outdate a pin. */
  lemma PinsOnText(a: nat, b: nat, c: nat, a': nat, b': nat, c': nat)
    ensures var pin, current := VersionText(a, b, c), VersionText(a', b', c');
      && (Stale(pin, current) <==> a != a' || b != b')
      && (a != a' ==> BumpOf(pin, current) == MajorBump)
      && (a == a' && b != b' ==> BumpOf(pin, current) == MinorBump)
      && (a == a' && b == b' ==> BumpOf(pin, current) in {PatchBump, SameVersion})
      && (pin == current ==> BumpOf(pin, current) == SameVersion)
  {
    ReleaseOfText(a, b, c);
    ReleaseOfText(a', b', c');
  }

  lemma {:induction false} SplitKeeps(s: string, sep: char, i: nat)
    requires i < |s| && s[i] != sep
    ensures exists j :: 0 <= j < |Paths.Split(s, sep)| && s[i] in Paths.Split(s, sep)[j]
  {
    var parts := Paths.Split(s, sep);
    if i == 0 {
      assert s[0] in parts[0];
    } else {
      SplitKeeps(s[1..], sep, i - 1);
      var rest := Paths.Split(s[1..], sep);
      var j :| 0 <= j < |rest| && s[i] in rest[j];
      if s[0] == sep {
        assert parts[j + 1] == rest[j];
      } else {
        assert s[i] in parts[j];
      }
    }
  }

  /** A version holding anything but digits and dots outdates no pin and is outdated by none. */
  lemma UnreadableIsNeverStale(pin: string, current: string, i: nat)
    requires i < |pin| && pin[i] !in "0123456789."
    ensures !Stale(pin, current) && !Stale(current, pin)
  {
    SplitKeeps(pin, '.', i);
    DigitMeaning(pin[i]);
    var parts := Paths.Split(pin, '.');
    var j :| 0 <= j < |parts| && pin[i] in parts[j];
    assert !Numeral(parts[j]);
  }
}
