/**
 * The few pieces of Rust's `str` that the core relies on: `char::is_whitespace`,
 * `trim`, `split_whitespace().next()`, `contains`, decimal `format!("{}")` of an
 * unsigned integer, and byte-offset slicing `&s[n..]`.
 */
module Strings {
  import opened Wrappers

  /** `char::is_whitespace`: the characters with the Unicode White_Space property. */
  predicate IsWhitespace(c: char)
  {
    ('\t' <= c <= '\r') || c == ' ' || c == '\U{85}' || c == '\U{A0}' || c == '\U{1680}'
    || ('\U{2000}' <= c <= '\U{200A}') || c == '\U{2028}' || c == '\U{2029}'
    || c == '\U{202F}' || c == '\U{205F}' || c == '\U{3000}'
  }

  predicate AllWhitespace(s: string)
  {
    forall i :: 0 <= i < |s| ==> IsWhitespace(s[i])
  }

  predicate NoWhitespace(s: string)
  {
    forall i :: 0 <= i < |s| ==> !IsWhitespace(s[i])
  }

  /** `str::trim_start`: drops the leading whitespace. */
  function TrimStart(s: string): (r: string)
    ensures |r| <= |s| && r == s[|s| - |r|..]
    ensures r == [] || !IsWhitespace(r[0])
  {
    if s != [] && IsWhitespace(s[0]) then TrimStart(s[1..]) else s
  }

  /** `str::trim_end`: drops the trailing whitespace. */
  function TrimEnd(s: string): (r: string)
    ensures |r| <= |s| && r == s[..|r|]
    ensures r == [] || !IsWhitespace(r[|r| - 1])
  {
    if s != [] && IsWhitespace(s[|s| - 1]) then
      var r := TrimEnd(s[..|s| - 1]);
      assert s[..|s| - 1][..|r|] == s[..|r|];
      r
    else s
  }

  /** `str::trim`. */
  function Trim(s: string): (r: string)
  {
    TrimEnd(TrimStart(s))
  }

  /** The number of leading whitespace characters of `s`. */
  function LeadLen(s: string): (k: nat)
    ensures k <= |s|
  {
    |s| - |TrimStart(s)|
  }

  lemma {:induction false} TakeCons(s: string, k: nat)
    requires k < |s|
    ensures s[..k + 1] == [s[0]] + s[1..][..k]
  {
  }

  lemma {:induction false} AllWhitespaceCons(c: char, x: string)
    requires IsWhitespace(c) && AllWhitespace(x)
    ensures AllWhitespace([c] + x)
  {
    assert forall i :: 1 <= i < |x| + 1 ==> ([c] + x)[i] == x[i - 1];
  }

  lemma {:induction false} DropSnoc(s: string, k: nat)
    requires k < |s|
    ensures s[k..] == s[..|s| - 1][k..] + [s[|s| - 1]]
  {
  }

  lemma {:induction false} AllWhitespaceSnoc(x: string, c: char)
    requires AllWhitespace(x) && IsWhitespace(c)
    ensures AllWhitespace(x + [c])
  {
    assert forall i :: 0 <= i < |x| ==> (x + [c])[i] == x[i];
  }

  /** What `trim_start` drops is whitespace. */
  lemma {:induction false} TrimStartDrops(s: string)
    ensures AllWhitespace(s[..LeadLen(s)])
    decreases |s|
  {
    if s != [] && IsWhitespace(s[0]) {
      TrimStartDrops(s[1..]);
      var k := LeadLen(s[1..]);
      assert LeadLen(s) == k + 1;
      TakeCons(s, k);
      AllWhitespaceCons(s[0], s[1..][..k]);
    }
  }

  /** What `trim_end` drops is whitespace. */
  lemma {:induction false} TrimEndDrops(s: string)
    ensures AllWhitespace(s[|TrimEnd(s)|..])
    decreases |s|
  {
    if s != [] && IsWhitespace(s[|s| - 1]) {
      var p := s[..|s| - 1];
      TrimEndDrops(p);
      var k := |TrimEnd(p)|;
      DropSnoc(s, k);
      AllWhitespaceSnoc(p[k..], s[|s| - 1]);
    } else {
      assert s[|s|..] == [];
    }
  }

  /** A string is all whitespace exactly when trimming its start leaves nothing. */
  lemma {:induction false} TrimStartAllWhitespace(s: string)
    ensures AllWhitespace(s) <==> TrimStart(s) == []
  {
    TrimStartDrops(s);
    if TrimStart(s) == [] {
      assert s[..LeadLen(s)] == s;
    }
  }

  /** A string is all whitespace exactly when trimming its end leaves nothing. */
  lemma {:induction false} TrimEndAllWhitespace(s: string)
    ensures AllWhitespace(s) <==> TrimEnd(s) == []
  {
    TrimEndDrops(s);
    if TrimEnd(s) == [] {
      assert s[|TrimEnd(s)|..] == s;
    }
  }

  /** A prefix of a suffix of `s` is a slice of `s`. */
  lemma {:induction false} PrefixOfSuffix(s: string, t: string, r: string, k: nat)
    requires k <= |s| && t == s[k..] && |r| <= |t| && r == t[..|r|]
    ensures k + |r| <= |s| && s[k..k + |r|] == r && s[k + |r|..] == t[|r|..]
  {
    assert s[k..k + |r|] == t[..|r|];
    assert s[k + |r|..] == t[|r|..];
  }

  /** Where the part `trim` keeps sits in `s`. */
  lemma {:induction false} TrimPlace(s: string)
    ensures LeadLen(s) + |Trim(s)| <= |s|
    ensures s[LeadLen(s)..LeadLen(s) + |Trim(s)|] == Trim(s)
    ensures s[LeadLen(s) + |Trim(s)|..] == TrimStart(s)[|Trim(s)|..]
  {
    PrefixOfSuffix(s, TrimStart(s), Trim(s), LeadLen(s));
  }

  /** What `trim` keeps neither starts nor ends with whitespace. */
  lemma {:induction false} TrimEdges(s: string)
    ensures Trim(s) == [] || (!IsWhitespace(Trim(s)[0]) && !IsWhitespace(Trim(s)[|Trim(s)| - 1]))
  {
    var t := TrimStart(s);
    var r := TrimEnd(t);
    if r != [] {
      assert r[0] == t[0];
    }
  }

  /** `trim` leaves nothing exactly when `s` is all whitespace. */
  lemma {:induction false} TrimEmpty(s: string)
    ensures Trim(s) == [] <==> AllWhitespace(s)
  {
    var t := TrimStart(s);
    TrimStartAllWhitespace(s);
    TrimEndAllWhitespace(t);
  }

  /**
   * `trim` keeps a contiguous middle part of `s`: everything before it and after it is
   * whitespace, and it neither starts nor ends with whitespace.
   */
  lemma {:induction false} TrimKeepsMiddle(s: string)
    ensures LeadLen(s) + |Trim(s)| <= |s|
    ensures s[LeadLen(s)..LeadLen(s) + |Trim(s)|] == Trim(s)
    ensures AllWhitespace(s[..LeadLen(s)])
    ensures AllWhitespace(s[LeadLen(s) + |Trim(s)|..])
    ensures Trim(s) == [] || (!IsWhitespace(Trim(s)[0]) && !IsWhitespace(Trim(s)[|Trim(s)| - 1]))
    ensures Trim(s) == [] <==> AllWhitespace(s)
  {
    TrimPlace(s);
    TrimStartDrops(s);
    TrimEndDrops(TrimStart(s));
    TrimEdges(s);
    TrimEmpty(s);
  }

  /** `str::trim` is idempotent. */
  lemma {:induction false} TrimIdempotent(s: string)
    ensures Trim(Trim(s)) == Trim(s)
  {
    var r := Trim(s);
    TrimEdges(s);
    if r != [] {
      assert TrimStart(r) == r;
      assert TrimEnd(r) == r;
    }
  }

  /** The longest prefix of `s` that holds no whitespace. */
  function TakeToken(s: string): (r: string)
    ensures |r| <= |s| && r == s[..|r|]
    ensures |r| == |s| || IsWhitespace(s[|r|])
  {
    if s == [] || IsWhitespace(s[0]) then []
    else
      var r := TakeToken(s[1..]);
      assert s[1..][..|r|] == s[1..|r| + 1];
      [s[0]] + r
  }

  /** A token holds no whitespace. */
  lemma {:induction false} TakeTokenNoWhitespace(s: string)
    ensures NoWhitespace(TakeToken(s))
    decreases |s|
  {
    if s != [] && !IsWhitespace(s[0]) {
      TakeTokenNoWhitespace(s[1..]);
      var r := TakeToken(s[1..]);
      assert forall i :: 1 <= i < |r| + 1 ==> ([s[0]] + r)[i] == r[i - 1];
    }
  }

  /** `s.split_whitespace().next()`, with `None` read as the empty string. */
  function FirstToken(s: string): string
  {
    TakeToken(TrimStart(s))
  }

  /**
   * The first whitespace-separated token is what follows the leading whitespace, up to
   * the next whitespace character or the end; it is empty exactly when `s` is all
   * whitespace.
   */
  lemma {:induction false} FirstTokenShape(s: string)
    ensures LeadLen(s) + |FirstToken(s)| <= |s|
    ensures AllWhitespace(s[..LeadLen(s)])
    ensures s[LeadLen(s)..LeadLen(s) + |FirstToken(s)|] == FirstToken(s)
    ensures NoWhitespace(FirstToken(s))
    ensures LeadLen(s) + |FirstToken(s)| == |s| || IsWhitespace(s[LeadLen(s) + |FirstToken(s)|])
    ensures FirstToken(s) == [] <==> AllWhitespace(s)
  {
    FirstTokenPlace(s);
    TrimStartDrops(s);
    TakeTokenNoWhitespace(TrimStart(s));
    FirstTokenEmpty(s);
  }

  /** Where the first token sits in `s`. */
  lemma {:induction false} FirstTokenPlace(s: string)
    ensures LeadLen(s) + |FirstToken(s)| <= |s|
    ensures s[LeadLen(s)..LeadLen(s) + |FirstToken(s)|] == FirstToken(s)
    ensures LeadLen(s) + |FirstToken(s)| == |s| || IsWhitespace(s[LeadLen(s) + |FirstToken(s)|])
  {
    var t, r, k := TrimStart(s), FirstToken(s), LeadLen(s);
    PrefixOfSuffix(s, t, r, k);
    if k + |r| < |s| {
      assert s[k + |r|] == s[k + |r|..][0] == t[|r|];
    }
  }

  /** The first token is empty exactly when `s` is all whitespace. */
  lemma {:induction false} FirstTokenEmpty(s: string)
    ensures FirstToken(s) == [] <==> AllWhitespace(s)
  {
    var t := TrimStart(s);
    TrimStartAllWhitespace(s);
    if t != [] {
      assert !IsWhitespace(t[0]);
      assert TakeToken(t) != [];
    }
  }

  /** `s.starts_with(p)`. */
  predicate StartsWith(s: string, p: string)
  {
    |p| <= |s| && s[..|p|] == p
  }

  /** `s.contains(t)` for a string pattern. */
  predicate Contains(s: string, t: string)
    decreases |s|
  {
    StartsWith(s, t) || (s != [] && Contains(s[1..], t))
  }

  /** `s.contains(t)` holds exactly when `t` occurs in `s` at some offset. */
  lemma {:induction false} ContainsIff(s: string, t: string)
    ensures Contains(s, t) <==> exists i | 0 <= i <= |s| :: StartsWith(s[i..], t)
    decreases |s|
  {
    if Contains(s, t) {
      if StartsWith(s, t) {
        assert s[0..] == s;
      } else {
        ContainsIff(s[1..], t);
        var i :| 0 <= i <= |s[1..]| && StartsWith(s[1..][i..], t);
        assert s[1..][i..] == s[i + 1..];
      }
    }
    if exists i | 0 <= i <= |s| :: StartsWith(s[i..], t) {
      var i :| 0 <= i <= |s| && StartsWith(s[i..], t);
      if i == 0 {
        assert s[0..] == s;
      } else {
        assert s[1..][i - 1..] == s[i..];
        ContainsIff(s[1..], t);
      }
    }
  }

  /** The decimal digit character for `d`. */
  function DigitChar(d: nat): (c: char)
    requires d < 10
    ensures '0' <= c <= '9'
  {
    (48 + d) as char
  }

  /** `format!("{}", n)` for an unsigned integer: decimal, no leading zeros. */
  function NatToString(n: nat): (s: string)
    ensures |s| >= 1
    ensures forall i :: 0 <= i < |s| ==> '0' <= s[i] <= '9'
    ensures |s| == 1 <==> n < 10
    ensures s[0] == '0' ==> n == 0
  {
    if n < 10 then [DigitChar(n)] else NatToString(n / 10) + [DigitChar(n % 10)]
  }

  /** Different numbers print differently. */
  lemma {:induction false} NatToStringInjective(a: nat, b: nat)
    requires NatToString(a) == NatToString(b)
    ensures a == b
  {
    if a >= 10 && b >= 10 {
      var sa, sb := NatToString(a), NatToString(b);
      assert sa[..|sa| - 1] == NatToString(a / 10);
      assert sb[..|sb| - 1] == NatToString(b / 10);
      NatToStringInjective(a / 10, b / 10);
      assert sa[|sa| - 1] == DigitChar(a % 10);
      assert sb[|sb| - 1] == DigitChar(b % 10);
    } else if a < 10 && b < 10 {
      assert NatToString(a)[0] == DigitChar(a);
    }
  }

  /** The number of bytes the UTF-8 encoding of `c` takes. */
  function Utf8Len(c: char): (n: nat)
    ensures 1 <= n <= 4
  {
    if c < '\U{80}' then 1 else if c < '\U{800}' then 2 else if c < '\U{10000}' then 3 else 4
  }

  /** `s.len()`: the length of `s` in bytes. */
  function ByteLen(s: string): nat
  {
    if s == [] then 0 else Utf8Len(s[0]) + ByteLen(s[1..])
  }

  /**
   * `&s[n..]` on a `str`: `None` where Rust panics, that is when `n` is past the end or
   * falls inside the encoding of a character.
   */
  function SliceFrom(s: string, n: nat): (r: Option<string>)
    ensures r.Some? ==> |r.value| <= |s| && r.value == s[|s| - |r.value|..]
  {
    if n == 0 then Some(s)
    else if s == [] || n < Utf8Len(s[0]) then None
    else SliceFrom(s[1..], n - Utf8Len(s[0]))
  }

  /** Dropping the bytes of a prefix `p` always lands on a boundary and leaves the rest. */
  lemma {:induction false} SliceFromPrefix(p: string, q: string)
    ensures SliceFrom(p + q, ByteLen(p)) == Some(q)
  {
    if p != [] {
      assert (p + q)[0] == p[0];
      assert (p + q)[1..] == p[1..] + q;
      assert ByteLen(p) == Utf8Len(p[0]) + ByteLen(p[1..]);
      SliceFromPrefix(p[1..], q);
      assert SliceFrom(p + q, ByteLen(p)) == SliceFrom((p + q)[1..], ByteLen(p[1..]));
    } else {
      assert p + q == q;
    }
  }

  /** The part of `s` between a leading `pre` and a trailing `post`, if `s` has both. */
  function Between(s: string, pre: string, post: string): (o: Option<string>)
    ensures o.Some? ==> pre + o.value + post == s
  {
    if |pre| + |post| <= |s| && s[..|pre|] == pre && s[|s| - |post|..] == post
    then Some(s[|pre|..|s| - |post|])
    else None
  }

  /** Whatever is put between `pre` and `post` is read back by `Between`. */
  lemma {:induction false} BetweenOf(pre: string, x: string, post: string)
    ensures Between(pre + x + post, pre, post) == Some(x)
  {
    var s := pre + x + post;
    assert s[..|pre|] == pre;
    assert s[|s| - |post|..] == post;
    assert s[|pre|..|s| - |post|] == x;
  }
}
