/**
 * Shared server constants (src/api/lib/constants.ts) and the random alias
 * generator. Randomness (`Math.random`) is a nondeterministic choice of a
 * position in the alphabet.
 */
module Constants {
  import opened Text

  /** The alphabet, spelled in its three runs: digits, upper case, lower case. */
  const DIGIT_RUN: string := "0123456789"
  const UPPER_RUN: string := "ABCDEFGHIJKLMNOPQRSTUVWXYZ"
  const LOWER_RUN: string := "abcdefghijklmnopqrstuvwxyz"
  const BASE62_CHARS: string := DIGIT_RUN + UPPER_RUN + LOWER_RUN

  const ALIAS_MAX_LENGTH: nat := 16
  const ALIAS_MIN_LENGTH: nat := 1
  const CACHE_TTL_SECONDS: nat := 3600
  const MAX_URL_LENGTH: nat := 2048
  const OG_CACHE_TTL_SECONDS: nat := 86400
  const OG_FETCH_TIMEOUT_MS: nat := 3000

  /** The symbol of digit value `d`, computed from the code points. */
  function Base62Digit(d: nat): char
    requires d < 62
  {
    if d < 10 then ('0' as int + d) as char
    else if d < 36 then ('A' as int + d - 10) as char
    else ('a' as int + d - 36) as char
  }

  /** The digit value of an alphanumeric symbol: its position in `BASE62_CHARS`. */
  function Base62Value(c: char): (d: nat)
    requires IsAlnum(c)
    ensures d < 62 && Base62Digit(d) == c
  {
    if IsDigit(c) then c as int - '0' as int
    else if IsAsciiUpper(c) then c as int - 'A' as int + 10
    else c as int - 'a' as int + 36
  }

  lemma Base62DigitValue(d: nat)
    requires d < 62
    ensures IsAlnum(Base62Digit(d)) && Base62Value(Base62Digit(d)) == d
  {
  }

  /** Position `d` of the alphabet holds the symbol of value `d`. */
  lemma Base62Layout()
    ensures |BASE62_CHARS| == 62
    ensures forall d :: 0 <= d < 62 ==> BASE62_CHARS[d] == Base62Digit(d)
  {
    forall d | 0 <= d < 10 ensures DIGIT_RUN[d] == Base62Digit(d) {
      assert d == 0 || d == 1 || d == 2 || d == 3 || d == 4 || d == 5 || d == 6 || d == 7 || d == 8 || d == 9;
    }
    forall d | 0 <= d < 26 ensures UPPER_RUN[d] == Base62Digit(d + 10) {
      assert d == 0 || d == 1 || d == 2 || d == 3 || d == 4 || d == 5 || d == 6 || d == 7 || d == 8 || d == 9 || d == 10 || d == 11 || d == 12 || d == 13 || d == 14 || d == 15 || d == 16 || d == 17 || d == 18 || d == 19 || d == 20 || d == 21 || d == 22 || d == 23 || d == 24 || d == 25;
    }
    forall d | 0 <= d < 26 ensures LOWER_RUN[d] == Base62Digit(d + 36) {
      assert d == 0 || d == 1 || d == 2 || d == 3 || d == 4 || d == 5 || d == 6 || d == 7 || d == 8 || d == 9 || d == 10 || d == 11 || d == 12 || d == 13 || d == 14 || d == 15 || d == 16 || d == 17 || d == 18 || d == 19 || d == 20 || d == 21 || d == 22 || d == 23 || d == 24 || d == 25;
    }
  }

  /** The alphabet is strictly increasing, so its 62 symbols are pairwise distinct. */
  lemma Base62Distinct()
    ensures |BASE62_CHARS| == 62
    ensures forall i, j :: 0 <= i < j < 62 ==> BASE62_CHARS[i] < BASE62_CHARS[j]
  {
    Base62Layout();
  }

  /** The alphabet is exactly the character class `[A-Za-z0-9]`. */
  lemma Base62Alphabet(c: char)
    ensures c in BASE62_CHARS <==> IsAlnum(c)
  {
    Base62Layout();
    if IsAlnum(c) {
      assert BASE62_CHARS[Base62Value(c)] == c;
    }
  }

  /**
   * `generateBase62(length = 6)`: `length` symbols, each drawn from the alphabet.
   */
  method GenerateBase62(length: nat := 6) returns (result: string)
    ensures |result| == length
    ensures forall k :: 0 <= k < |result| ==> result[k] in BASE62_CHARS
  {
    Base62Layout();
    result := "";
    for i := 0 to length
      invariant |result| == i
      invariant forall k :: 0 <= k < |result| ==> result[k] in BASE62_CHARS
    {
      var pick: nat :| pick < 62;
      result := result + [BASE62_CHARS[pick]];
    }
  }
}
