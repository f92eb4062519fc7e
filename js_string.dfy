/**
 * `String.prototype.trim` over `seq<char>`: leading and trailing characters of
 * the ECMAScript WhiteSpace and LineTerminator classes are removed.
 */
module JsString {

  /**
   * ECMAScript WhiteSpace (TAB, VT, FF, ZWNBSP and the Unicode "Space
   * Separator" category) and LineTerminator (LF, CR, LS, PS).
   */
  predicate IsWhitespace(c: char)
    ensures c == ' ' || c == '\t' || c == '\n' || c == '\r' ==> IsWhitespace(c)
    ensures 'a' <= c <= 'z' || 'A' <= c <= 'Z' || '0' <= c <= '9' ==> !IsWhitespace(c)
    ensures IsWhitespace(c) ==> c as int <= 0xFEFF
  {
    var n := c as int;
    n == 0x09 || n == 0x0A || n == 0x0B || n == 0x0C || n == 0x0D || n == 0x20 ||
    n == 0xA0 || n == 0x1680 || (0x2000 <= n <= 0x200A) || n == 0x2028 || n == 0x2029 ||
    n == 0x202F || n == 0x205F || n == 0x3000 || n == 0xFEFF
  }

  /** Neither the first nor the last character (if any) is whitespace. */
  predicate IsTrimmed(s: string) {
    s == [] || (!IsWhitespace(s[0]) && !IsWhitespace(s[|s| - 1]))
  }

  /** `trimStart`: the suffix left after dropping the leading whitespace. */
  function TrimStart(s: string): (r: string)
    ensures |r| <= |s| && r == s[|s| - |r|..]
    ensures forall i :: 0 <= i < |s| - |r| ==> IsWhitespace(s[i])
    ensures r != [] ==> !IsWhitespace(r[0])
  {
    if s != [] && IsWhitespace(s[0]) then TrimStart(s[1..]) else s
  }

  /** `trimEnd`: the prefix left after dropping the trailing whitespace. */
  function TrimEnd(s: string): (r: string)
    ensures |r| <= |s| && r == s[..|r|]
    ensures forall i :: |r| <= i < |s| ==> IsWhitespace(s[i])
    ensures r != [] ==> !IsWhitespace(r[|r| - 1])
  {
    if s != [] && IsWhitespace(s[|s| - 1]) then TrimEnd(s[..|s| - 1]) else s
  }

  /** `trim`: both ends stripped; the result is no longer and has no whitespace at either end. */
  function Trim(s: string): (r: string)
    ensures |r| <= |s|
    ensures IsTrimmed(r)
  {
    var t := TrimStart(s);
    var r := TrimEnd(t);
    assert r != [] ==> r[0] == t[0];
    r
  }

  /**
   * The trimmed text is a contiguous slice of the input, everything cut away
   * on either side is whitespace, and the slice itself has no whitespace at
   * either end.
   */
  lemma TrimIsCleanSlice(s: string) returns (lo: nat, hi: nat)
    ensures lo <= hi <= |s| && Trim(s) == s[lo..hi]
    ensures forall i :: 0 <= i < lo ==> IsWhitespace(s[i])
    ensures forall i :: hi <= i < |s| ==> IsWhitespace(s[i])
    ensures IsTrimmed(Trim(s))
  {
    var t := TrimStart(s);
    lo := |s| - |t|;
    hi := lo + |TrimEnd(t)|;
    assert TrimEnd(t) == t[..hi - lo];
    forall i | hi <= i < |s| ensures IsWhitespace(s[i]) {
      assert s[i] == t[i - lo];
    }
    if Trim(s) != [] {
      assert Trim(s)[0] == t[0];
    }
  }

  /** `s.trim()` is empty exactly when every character of `s` is whitespace. */
  lemma TrimEmptyIff(s: string)
    ensures Trim(s) == [] <==> forall i :: 0 <= i < |s| ==> IsWhitespace(s[i])
  {
    if Trim(s) == [] {
      // TrimStart left nothing: a non-empty rest would begin with a non-space
      // that TrimEnd cannot remove.
      assert TrimStart(s) == [];
    } else {
      var lo, hi := TrimIsCleanSlice(s);
      assert s[lo] == Trim(s)[0];
    }
  }

  /** Trimming text that is already trimmed changes nothing. */
  lemma TrimTrimmed(s: string)
    requires IsTrimmed(s)
    ensures Trim(s) == s
  {
  }

  /** `trim` is idempotent. */
  lemma TrimIdempotent(s: string)
    ensures Trim(Trim(s)) == Trim(s)
  {
    var lo, hi := TrimIsCleanSlice(s);
    TrimTrimmed(Trim(s));
  }

  /** The text "  Buy milk  " is forwarded as "Buy milk". */
  lemma TrimPaddedText()
    ensures Trim("  Buy milk  ") == "Buy milk"
  {
    var s := "  Buy milk  ";
    var start := s[2..];
    assert start == "Buy milk  ";
    assert !IsWhitespace(start[0]);
    assert TrimStart(s[1..]) == start by {
      assert s[1..][1..] == start;
      assert IsWhitespace(s[1..][0]);
    }
    assert TrimStart(s) == start by {
      assert IsWhitespace(s[0]);
    }
    var text := start[..8];
    assert text == "Buy milk";
    assert !IsWhitespace(text[7]);
    assert TrimEnd(start[..9]) == text by {
      assert start[..9][..8] == text;
      assert IsWhitespace(start[..9][8]);
    }
    assert TrimEnd(start) == text by {
      assert start[..9] == start[..|start| - 1];
      assert IsWhitespace(start[9]);
    }
  }

  /** Blank text such as "  " trims to nothing. */
  lemma TrimBlankText()
    ensures Trim("  ") == ""
  {
    var s := "  ";
    assert TrimStart(s[1..]) == [] by {
      assert s[1..][1..] == [];
      assert IsWhitespace(s[1..][0]);
    }
    assert IsWhitespace(s[0]);
  }
}
