/**
 * UString, lttoolbox's `std::basic_string<UChar>`: a sequence of UTF-16
 * code units, and the order `std::map<UString, ...>` keeps its keys in.
 */
module UStrings {

  /** `UChar`, a 16-bit code unit. */
  newtype u16 = x: int | 0 <= x < 0x1_0000

  type UString = seq<u16>

  /** `a < b` for basic_string: code units compared one by one, a proper
      prefix before its extensions. */
  predicate Less(a: UString, b: UString)
  {
    if |b| == 0 then false
    else if |a| == 0 then true
    else if a[0] != b[0] then a[0] < b[0]
    else Less(a[1..], b[1..])
  }

  /** basic_string::compare as the standard words it: the first position
      where the two differ decides, and without one the shorter string is
      the smaller. */
  predicate Precedes(a: UString, b: UString)
  {
    || (exists k :: 0 <= k < |a| && k < |b| && a[..k] == b[..k] && a[k] < b[k])
    || (|a| < |b| && a == b[..|a|])
  }

  /** The recursive order and the first-difference order are the same. */
  lemma LessIsPrecedes(a: UString, b: UString)
    ensures Less(a, b) <==> Precedes(a, b)
  {
    if Less(a, b) {
      LessPrecedes(a, b);
    }
    if Precedes(a, b) {
      PrecedesLess(a, b);
    }
  }

  lemma {:induction false} LessPrecedes(a: UString, b: UString)
    requires Less(a, b)
    ensures Precedes(a, b)
  {
    if |a| == 0 {
      assert a == b[..0];
    } else if a[0] != b[0] {
      assert a[..0] == b[..0];
    } else {
      LessPrecedes(a[1..], b[1..]);
      if exists k :: 0 <= k < |a[1..]| && k < |b[1..]| && a[1..][..k] == b[1..][..k] && a[1..][k] < b[1..][k] {
        var k :| 0 <= k < |a[1..]| && k < |b[1..]| && a[1..][..k] == b[1..][..k] && a[1..][k] < b[1..][k];
        assert a[..k + 1] == [a[0]] + a[1..][..k];
        assert b[..k + 1] == [b[0]] + b[1..][..k];
        assert a[k + 1] < b[k + 1];
      } else {
        assert a == [a[0]] + a[1..];
        assert b[..|a|] == [b[0]] + b[1..][..|a[1..]|];
      }
    }
  }

  lemma {:induction false} PrecedesLess(a: UString, b: UString)
    requires Precedes(a, b)
    ensures Less(a, b)
  {
    if |a| > 0 && a[0] == b[0] {
      if exists k :: 0 <= k < |a| && k < |b| && a[..k] == b[..k] && a[k] < b[k] {
        var k :| 0 <= k < |a| && k < |b| && a[..k] == b[..k] && a[k] < b[k];
        assert k > 0;
        assert a[1..][..k - 1] == a[..k][1..];
        assert b[1..][..k - 1] == b[..k][1..];
        assert a[1..][k - 1] < b[1..][k - 1];
      } else {
        assert a[1..] == b[..|a|][1..];
        assert b[1..][..|a[1..]|] == b[..|a|][1..];
      }
      PrecedesLess(a[1..], b[1..]);
    }
  }

  lemma {:induction false} LessIrreflexive(a: UString)
    ensures !Less(a, a)
  {
    if |a| > 0 {
      LessIrreflexive(a[1..]);
    }
  }

  lemma {:induction false} LessTransitive(a: UString, b: UString, c: UString)
    requires Less(a, b) && Less(b, c)
    ensures Less(a, c)
  {
    if |a| > 0 && a[0] == b[0] && b[0] == c[0] {
      LessTransitive(a[1..], b[1..], c[1..]);
    }
  }

  /** Two different strings are ordered one way or the other, never both. */
  lemma {:induction false} LessTotal(a: UString, b: UString)
    ensures a == b || Less(a, b) || Less(b, a)
    ensures !(Less(a, b) && Less(b, a))
  {
    if |a| > 0 && |b| > 0 && a[0] == b[0] {
      LessTotal(a[1..], b[1..]);
      if a[1..] == b[1..] {
        assert a == [a[0]] + a[1..];
        assert b == [b[0]] + b[1..];
      }
    }
  }
}
