/** Strings as the services search and build them. */
module Strings {

  import opened Wrappers

  /** A text that is there and not empty. */
  predicate Truthy(text: Option<string>) {
    text.Some? && text.value != ""
  }

  /** String.prototype.includes. */
  predicate Includes(text: string, part: string) {
    exists i | 0 <= i <= |text| - |part| :: OccursAt(text, part, i)
  }

  predicate OccursAt(text: string, part: string, i: nat)
    requires i + |part| <= |text|
  {
    text[i..i + |part|] == part
  }

  lemma IncludesSelf(text: string)
    ensures Includes(text, text)
  {
    assert OccursAt(text, text, 0);
  }

  /** A text without the separator occurs in a joined text exactly when it occurs in one of the parts. */
  lemma IncludesApart(left: string, separator: char, right: string, part: string)
    requires separator !in part && part != ""
    ensures Includes(left + [separator] + right, part) <==> Includes(left, part) || Includes(right, part)
  {
    if Includes(left, part) || Includes(right, part) {
      IncludesPart(left, separator, right, part);
    }
    if i :| 0 <= i <= |left + [separator] + right| - |part| && OccursAt(left + [separator] + right, part, i) {
      OccursApart(left, separator, right, part, i);
    }
    hide OccursAt;
  }

  lemma IncludesPart(left: string, separator: char, right: string, part: string)
    requires Includes(left, part) || Includes(right, part)
    ensures Includes(left + [separator] + right, part)
  {
    var text := left + [separator] + right;
    if i :| 0 <= i <= |left| - |part| && OccursAt(left, part, i) {
      assert text[i..i + |part|] == left[i..i + |part|];
      assert OccursAt(text, part, i);
    } else {
      var i :| 0 <= i <= |right| - |part| && OccursAt(right, part, i);
      var j := |left| + 1 + i;
      assert text[j..j + |part|] == right[i..i + |part|];
      assert OccursAt(text, part, j);
    }
  }

  lemma OccursApart(left: string, separator: char, right: string, part: string, i: nat)
    requires separator !in part && part != ""
    requires i + |part| <= |left + [separator] + right| && OccursAt(left + [separator] + right, part, i)
    ensures Includes(left, part) || Includes(right, part)
  {
    var text := left + [separator] + right;
    assert text[|left|] == separator;
    assert part == text[i..i + |part|];
    assert forall j | i <= j < i + |part| :: text[j] == part[j - i];
    assert forall k | 0 <= k < |part| :: part[k] != separator;
    assert |left| < i || i + |part| <= |left|;
    if i + |part| <= |left| {
      assert left[i..i + |part|] == text[i..i + |part|];
      assert OccursAt(left, part, i);
    } else {
      var j := i - |left| - 1;
      assert right[j..j + |part|] == text[i..i + |part|];
      assert OccursAt(right, part, j);
    }
  }

  const DIGITS := "0123456789"

  /** String(n). */
  function Decimal(n: nat): (text: string)
    ensures text != "" && forall i | 0 <= i < |text| :: text[i] in DIGITS
  {
    if n < 10 then [DIGITS[n]] else Decimal(n / 10) + [DIGITS[n % 10]]
  }

  lemma {:induction false} DecimalInjective(m: nat, n: nat)
    requires Decimal(m) == Decimal(n)
    ensures m == n
  {
    var a, b := Decimal(m), Decimal(n);
    assert a[|a| - 1] == DIGITS[m % 10] && b[|b| - 1] == DIGITS[n % 10];
    if m >= 10 && n >= 10 {
      assert a[..|a| - 1] == Decimal(m / 10) && b[..|b| - 1] == Decimal(n / 10);
      DecimalInjective(m / 10, n / 10);
    }
  }

  /** The number that a text of digits writes. */
  function Written(text: string): int {
    if text == "" then 0 else 10 * Written(text[..|text| - 1]) + (text[|text| - 1] as int - '0' as int)
  }

  /** String(n) writes n, without a leading zero. */
  lemma {:induction false} DecimalWrites(n: nat)
    ensures Written(Decimal(n)) == n && (Decimal(n)[0] == '0' ==> n == 0)
  {
    var text := Decimal(n);
    if n >= 10 {
      DecimalWrites(n / 10);
      assert text[..|text| - 1] == Decimal(n / 10);
      assert text[0] == Decimal(n / 10)[0];
    } else {
      assert text[..0] == "";
      assert Written(text) == 10 * Written("") + (text[0] as int - '0' as int);
    }
  }
}
