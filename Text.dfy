/** String helpers: the preview truncation used for history scripts and
    editor labels, and String.prototype.trim. */
module Text {

  /** `s.substring(0, limit) + (s.length > limit ? '...' : '')`. */
  function Truncate(s: string, limit: nat): (r: string)
    ensures |s| <= limit ==> r == s
    ensures |s| > limit ==> |r| == limit + 3 && r[..limit] == s[..limit] && r[limit..] == "..."
  {
    if |s| > limit then s[..limit] + "..." else s
  }

  /** The result of Truncate never exceeds the limit by more than the
      ellipsis, and always begins with what it keeps of the input. */
  lemma TruncateBounds(s: string, limit: nat)
    ensures |Truncate(s, limit)| <= limit + 3
    ensures var k := if |s| < limit then |s| else limit;
      Truncate(s, limit)[..k] == s[..k]
  {
  }

  /** `s.length` in JavaScript: the number of UTF-16 code units, two for a
      character outside the Basic Multilingual Plane. */
  function Utf16Length(s: string): nat
  {
    if s == [] then 0 else (if s[0] as int >= 0x10000 then 2 else 1) + Utf16Length(s[1..])
  }

  predicate InBmp(s: string)
  {
    forall i :: 0 <= i < |s| ==> (s[i] as int) < 0x10000
  }

  /** A string counts between one and two code units per character, and
      exactly one per character when it stays within the BMP, where Truncate
      cuts where `substring` does. */
  lemma {:induction false} Utf16LengthBounds(s: string)
    ensures |s| <= Utf16Length(s) <= 2 * |s|
    ensures InBmp(s) <==> Utf16Length(s) == |s|
  {
    if s != [] {
      Utf16LengthBounds(s[1..]);
      if InBmp(s[1..]) && s[0] as int < 0x10000 {
        forall i | 0 <= i < |s| ensures (s[i] as int) < 0x10000 {
          if i > 0 { assert s[i] == s[1..][i - 1]; }
        }
      }
      if InBmp(s) {
        forall i | 0 <= i < |s[1..]| ensures (s[1..][i] as int) < 0x10000 {
          assert s[1..][i] == s[i + 1];
        }
      }
    }
  }

  /** The characters `trim` removes: the white space of ECMAScript (tab,
      vertical tab, form feed, the byte-order mark and every space separator
      of Unicode category Zs) and its line terminators. */
  predicate IsSpace(c: char)
  {
    c == '\t' || c == '\U{B}' || c == '\U{C}' || c == '\U{FEFF}'
    || c == ' ' || c == '\U{A0}' || c == '\U{1680}' || ('\U{2000}' <= c <= '\U{200A}')
    || c == '\U{202F}' || c == '\U{205F}' || c == '\U{3000}'
    || c == '\n' || c == '\r' || c == '\U{2028}' || c == '\U{2029}'
  }

  function TrimStart(s: string): (r: string)
    ensures |r| <= |s| && r == s[|s| - |r|..]
    ensures r == [] || !IsSpace(r[0])
  {
    if s != [] && IsSpace(s[0]) then TrimStart(s[1..]) else s
  }

  /** What TrimStart drops is whitespace. */
  lemma {:induction false} TrimStartDropsSpace(s: string)
    ensures forall i :: 0 <= i < |s| - |TrimStart(s)| ==> IsSpace(s[i])
  {
    if s != [] && IsSpace(s[0]) {
      TrimStartDropsSpace(s[1..]);
      forall i | 0 <= i < |s| - |TrimStart(s)|
        ensures IsSpace(s[i])
      {
        if i > 0 {
          assert s[i] == s[1..][i - 1];
        }
      }
    }
  }

  function TrimEnd(s: string): (r: string)
    ensures |r| <= |s| && r == s[..|r|]
    ensures r == [] || !IsSpace(r[|r| - 1])
  {
    if s != [] && IsSpace(s[|s| - 1]) then TrimEnd(s[..|s| - 1]) else s
  }

  /** What TrimEnd drops is whitespace. */
  lemma {:induction false} TrimEndDropsSpace(s: string)
    ensures forall i :: |TrimEnd(s)| <= i < |s| ==> IsSpace(s[i])
  {
    if s != [] && IsSpace(s[|s| - 1]) {
      TrimEndDropsSpace(s[..|s| - 1]);
      forall i | |TrimEnd(s)| <= i < |s|
        ensures IsSpace(s[i])
      {
        if i < |s| - 1 {
          assert s[i] == s[..|s| - 1][i];
        }
      }
    }
  }

  /** `s.trim()`: the input without its leading and trailing whitespace. */
  function Trim(s: string): string
  {
    TrimEnd(TrimStart(s))
  }

  /** Trim yields a contiguous piece of the input that neither starts nor
      ends with whitespace, everything it drops before and after that piece
      is whitespace, and it is empty exactly when the input is all
      whitespace. */
  lemma TrimSpec(s: string)
    ensures var lo := |s| - |TrimStart(s)|; var hi := lo + |Trim(s)|;
      && 0 <= lo <= hi <= |s| && Trim(s) == s[lo..hi]
      && (forall i :: 0 <= i < lo ==> IsSpace(s[i]))
      && (forall i :: hi <= i < |s| ==> IsSpace(s[i]))
    ensures Trim(s) != [] ==> !IsSpace(Trim(s)[0]) && !IsSpace(Trim(s)[|Trim(s)| - 1])
    ensures Trim(s) == [] <==> forall i :: 0 <= i < |s| ==> IsSpace(s[i])
  {
    TrimSlice(s);
    TrimStartDropsSpace(s);
    TrimEndDropsSpace(TrimStart(s));
    TrimEnds(s);
    TrimEmpty(s);
  }

  lemma TrimSlice(s: string)
    ensures Trim(s) == s[|s| - |TrimStart(s)|..|s| - |TrimStart(s)| + |Trim(s)|]
  {
    var a := TrimStart(s);
    var b := TrimEnd(a);
    assert Trim(s) == b;
    SliceOfSlice(s, a, b);
  }

  /** A prefix of a suffix of s is a slice of s. */
  lemma SliceOfSlice(s: string, a: string, b: string)
    requires |a| <= |s| && a == s[|s| - |a|..]
    requires |b| <= |a| && b == a[..|b|]
    ensures b == s[|s| - |a|..|s| - |a| + |b|]
  {
  }

  lemma TrimEnds(s: string)
    ensures Trim(s) != [] ==> !IsSpace(Trim(s)[0]) && !IsSpace(Trim(s)[|Trim(s)| - 1])
  {
    var a := TrimStart(s);
    var b := TrimEnd(a);
    if b != [] {
      assert b[0] == a[0];
    }
  }

  lemma TrimEmpty(s: string)
    ensures Trim(s) == [] <==> forall i :: 0 <= i < |s| ==> IsSpace(s[i])
  {
    var a := TrimStart(s);
    TrimStartDropsSpace(s);
    TrimEndEmpty(a);
  }

  /** TrimEnd empties exactly the strings made only of whitespace. */
  lemma TrimEndEmpty(a: string)
    ensures TrimEnd(a) == [] <==> forall i :: 0 <= i < |a| ==> IsSpace(a[i])
  {
    var b := TrimEnd(a);
    TrimEndDropsSpace(a);
    if b != [] {
      assert b[|b| - 1] == a[|b| - 1];
    }
  }
}
