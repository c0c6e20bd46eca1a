/** Strings as sequences of code points: Python's string order, and trimming. */
module Text {

  /** Lexicographic order by code point, as Python compares two strings. */
  predicate StrLe(a: string, b: string)
  {
    a == [] || (b != [] && (a[0] < b[0] || (a[0] == b[0] && StrLe(a[1..], b[1..]))))
  }

  predicate StrLt(a: string, b: string)
  {
    StrLe(a, b) && a != b
  }

  lemma {:induction false} StrLeTotal(a: string, b: string)
    ensures StrLe(a, b) || StrLe(b, a)
  {
    if a != [] && b != [] && a[0] == b[0] {
      StrLeTotal(a[1..], b[1..]);
    }
  }

  lemma {:induction false} StrLeRefl(a: string)
    ensures StrLe(a, a)
  {
    if a != [] {
      StrLeRefl(a[1..]);
    }
  }

  lemma {:induction false} StrLeAntisym(a: string, b: string)
    requires StrLe(a, b) && StrLe(b, a)
    ensures a == b
  {
    if a != [] {
      StrLeAntisym(a[1..], b[1..]);
      assert a == [a[0]] + a[1..] && b == [b[0]] + b[1..];
    }
  }

  lemma {:induction false} StrLeTrans(a: string, b: string, c: string)
    requires StrLe(a, b) && StrLe(b, c)
    ensures StrLe(a, c)
  {
    if a != [] && a[0] == b[0] == c[0] {
      StrLeTrans(a[1..], b[1..], c[1..]);
    }
  }

  /** Lexicographic order on pairs of strings, as Python compares two tuples. */
  predicate PairLe(a: (string, string), b: (string, string))
  {
    if a.0 == b.0 then StrLe(a.1, b.1) else StrLe(a.0, b.0)
  }

  predicate PairLt(a: (string, string), b: (string, string))
  {
    PairLe(a, b) && a != b
  }

  lemma PairLeTotal(a: (string, string), b: (string, string))
    ensures PairLe(a, b) || PairLe(b, a)
  {
    StrLeTotal(a.0, b.0);
    StrLeTotal(a.1, b.1);
  }

  lemma PairLeRefl(a: (string, string))
    ensures PairLe(a, a)
  {
    StrLeRefl(a.1);
  }

  lemma PairLeAntisym(a: (string, string), b: (string, string))
    requires PairLe(a, b) && PairLe(b, a)
    ensures a == b
  {
    if a.0 == b.0 {
      StrLeAntisym(a.1, b.1);
    } else {
      StrLeAntisym(a.0, b.0);
    }
  }

  lemma PairLeTrans(a: (string, string), b: (string, string), c: (string, string))
    requires PairLe(a, b) && PairLe(b, c)
    ensures PairLe(a, c)
  {
    if a.0 == b.0 == c.0 {
      StrLeTrans(a.1, b.1, c.1);
    } else if a.0 == b.0 || b.0 == c.0 {
    } else {
      StrLeTrans(a.0, b.0, c.0);
      if a.0 == c.0 {
        StrLeAntisym(a.0, b.0);
      }
    }
  }

  /** The characters `str.strip` and `str::trim` remove (the Unicode White_Space set). */
  predicate IsSpace(c: char)
  {
    '\t' <= c <= '\r' || c == ' ' || c == '\U{85}' || c == '\U{A0}' || c == '\U{1680}' ||
    '\U{2000}' <= c <= '\U{200A}' || c == '\U{2028}' || c == '\U{2029}' || c == '\U{202F}' ||
    c == '\U{205F}' || c == '\U{3000}'
  }

  function TrimStart(s: string): (r: string)
    ensures |r| <= |s| && r == s[|s| - |r|..]
    ensures r != [] ==> !IsSpace(r[0])
    ensures forall k :: 0 <= k < |s| - |r| ==> IsSpace(s[k])
  {
    if s != [] && IsSpace(s[0]) then TrimStart(s[1..]) else s
  }

  function TrimEnd(s: string): (r: string)
    ensures |r| <= |s| && r == s[..|r|]
    ensures r != [] ==> !IsSpace(r[|r| - 1])
    ensures forall k :: |r| <= k < |s| ==> IsSpace(s[k])
  {
    if s != [] && IsSpace(s[|s| - 1]) then TrimEnd(s[..|s| - 1]) else s
  }

  function Trim(s: string): string
  {
    TrimStart(TrimEnd(s))
  }

  predicate Trimmed(s: string)
  {
    s == [] || (!IsSpace(s[0]) && !IsSpace(s[|s| - 1]))
  }

  lemma TrimFixes(s: string)
    ensures Trim(s) == s <==> Trimmed(s)
  {
    var e := TrimEnd(s);
    if Trimmed(s) && s != [] {
      assert |e| == |s|;
      assert s[..|s|] == s;
    } else if Trim(s) == s {
      assert |e| == |s|;
      assert s[..|s|] == s;
    }
  }

  predicate AllSpace(s: string)
  {
    forall i :: 0 <= i < |s| ==> IsSpace(s[i])
  }

  /** What is left between two runs of white space is the trimmed string. */
  lemma TrimOf(a: string, m: string, b: string)
    requires AllSpace(a) && AllSpace(b) && Trimmed(m)
    ensures Trim(a + m + b) == m
  {
    var s := a + m + b;
    var e := TrimEnd(s);
    var t := TrimStart(e);
    if m == "" {
      assert AllSpace(s);
      assert e == "";
    } else {
      assert s[|a|] == m[0] && s[|a| + |m| - 1] == m[|m| - 1];
      assert |e| == |a| + |m|;
      assert e == a + m;
      assert |t| == |m|;
    }
  }

  /** A string that starts with something visible keeps its start. */
  lemma TrimKeepsFirst(s: string)
    requires s != "" && !IsSpace(s[0])
    ensures Trim(s) != "" && Trim(s)[0] == s[0]
  {
  }

  /** Where the trimmed string sits in the whole. */
  lemma TrimSpan(s: string) returns (i: nat, j: nat)
    ensures i <= j <= |s| && Trim(s) == s[i..j] && Trimmed(Trim(s))
    ensures AllSpace(s[..i]) && AllSpace(s[j..]) && TrimEnd(s) == s[..j]
  {
    hide IsSpace, TrimStart, TrimEnd;
    var e := TrimEnd(s);
    var t := TrimStart(e);
    i, j := |e| - |t|, |e|;
    assert t == e[i..] == s[i..j];
    forall k | 0 <= k < i
      ensures IsSpace(s[..i][k])
    {
      assert e[k] == s[k];
    }
    if t != "" {
      assert t[|t| - 1] == e[|e| - 1];
    }
  }

  function AsciiLowerChar(c: char): char
  {
    if 'A' <= c <= 'Z' then c - 'A' + 'a' else c
  }

  function AsciiLower(s: string): (r: string)
    ensures |r| == |s|
  {
    seq(|s|, i requires 0 <= i < |s| => AsciiLowerChar(s[i]))
  }
}
