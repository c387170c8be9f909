/**
 * The three JavaScript string operations the handler relies on:
 * `String.prototype.trim`, `String.prototype.toLowerCase` and
 * `String.prototype.includes` (which is also what an unanchored regular
 * expression made only of literal alternatives tests).
 */
module Text {

  /** The WhiteSpace and LineTerminator code points that `trim` strips. */
  predicate IsSpace(c: char) {
    || c == '\t' || c == '\n' || c == '\U{0B}' || c == '\U{0C}' || c == '\r'
    || c == ' ' || c == '\U{A0}' || c == '\U{1680}'
    || ('\U{2000}' <= c <= '\U{200A}')
    || c == '\U{2028}' || c == '\U{2029}' || c == '\U{202F}' || c == '\U{205F}'
    || c == '\U{3000}' || c == '\U{FEFF}'
  }

  predicate AllSpace(s: string) {
    forall i :: 0 <= i < |s| ==> IsSpace(s[i])
  }

  /** Upper-case letters of Basic Latin and Latin-1 that `toLowerCase` maps down by 0x20. */
  predicate IsUpper(c: char) {
    ('A' <= c <= 'Z') || ('\U{C0}' <= c <= '\U{DE}' && c != '\U{D7}')
  }

  function LowerChar(c: char): (d: char)
    ensures !IsUpper(d)
    ensures !IsUpper(c) ==> d == c
    ensures IsUpper(c) ==> d as int == c as int + 32
  {
    if IsUpper(c) then (c as int + 32) as char else c
  }

  /** `toLowerCase`, code point by code point. */
  function LowerStr(s: string): (r: string)
    ensures |r| == |s|
    ensures forall i :: 0 <= i < |s| ==> r[i] == LowerChar(s[i])
  {
    if s == [] then [] else [LowerChar(s[0])] + LowerStr(s[1..])
  }

  /** Lower-casing a lower-cased string changes nothing. */
  lemma LowerStrIdempotent(s: string)
    ensures LowerStr(LowerStr(s)) == LowerStr(s)
  {
  }

  /** Lower-casing works on each piece of a concatenation separately. */
  lemma LowerStrAppend(a: string, b: string)
    ensures LowerStr(a + b) == LowerStr(a) + LowerStr(b)
  {
  }

  /** Text without upper-case letters is its own lower-case form. */
  lemma LowerStrKeepsLower(s: string)
    requires forall c :: c in s ==> !IsUpper(c)
    ensures LowerStr(s) == s
  {
    assert forall i :: 0 <= i < |s| ==> s[i] in s;
  }

  /** Whitespace has no case. */
  lemma LowerStrKeepsSpace(s: string)
    requires AllSpace(s)
    ensures LowerStr(s) == s
  {
  }

  /** `trimStart`: drops the leading whitespace and nothing else. */
  function TrimStart(s: string): (r: string)
    ensures |r| <= |s| && r == s[|s| - |r|..]
    ensures AllSpace(s[..|s| - |r|])
    ensures r == [] || !IsSpace(r[0])
    decreases |s|
  {
    if |s| > 0 && IsSpace(s[0]) then
      var r := TrimStart(s[1..]);
      var m := |s| - |r|;
      assert s[1..][m - 1..] == s[m..];
      assert forall k :: 0 <= k < m ==> IsSpace(s[..m][k]) by {
        forall k | 0 <= k < m ensures IsSpace(s[..m][k]) {
          if k > 0 {
            assert s[1..][..m - 1][k - 1] == s[k];
          }
        }
      }
      r
    else
      s
  }

  /** `trimEnd`: drops the trailing whitespace and nothing else. */
  function TrimEnd(s: string): (r: string)
    ensures |r| <= |s| && r == s[..|r|]
    ensures AllSpace(s[|r|..])
    ensures r == [] || !IsSpace(r[|r| - 1])
    decreases |s|
  {
    if |s| > 0 && IsSpace(s[|s| - 1]) then
      var r := TrimEnd(s[..|s| - 1]);
      assert s[..|s| - 1][..|r|] == s[..|r|];
      assert forall k :: |r| <= k < |s| ==> IsSpace(s[k]) by {
        forall k | |r| <= k < |s| ensures IsSpace(s[k]) {
          if k < |s| - 1 {
            assert s[..|s| - 1][|r|..][k - |r|] == s[k];
          }
        }
      }
      assert forall k :: 0 <= k < |s| - |r| ==> s[|r|..][k] == s[|r| + k];
      r
    else
      s
  }

  /** `trim`: the longest infix of `s` that neither starts nor ends with whitespace. */
  function Trim(s: string): (r: string)
    ensures |r| <= |s|
    ensures r == [] || (!IsSpace(r[0]) && !IsSpace(r[|r| - 1]))
    ensures r == [] <==> AllSpace(s)
  {
    var t := TrimStart(s);
    var r := TrimEnd(t);
    assert r == [] ==> AllSpace(s) by {
      if r == [] {
        assert s == s[..|s| - |t|] + t;
        assert t == t[|r|..];
      }
    }
    r
  }

  /** Text that neither starts nor ends with whitespace is its own trim. */
  lemma TrimUnpadded(s: string)
    requires s == [] || (!IsSpace(s[0]) && !IsSpace(s[|s| - 1]))
    ensures Trim(s) == s
  {
    assert TrimStart(s) == s;
  }

  /** A whitespace prefix disappears under `trimStart`. */
  lemma {:induction false} TrimStartPadding(ws: string, x: string)
    requires AllSpace(ws)
    ensures TrimStart(ws + x) == TrimStart(x)
    decreases |ws|
  {
    if ws == [] {
      assert ws + x == x;
    } else {
      assert (ws + x)[0] == ws[0];
      assert (ws + x)[1..] == ws[1..] + x;
      TrimStartPadding(ws[1..], x);
    }
  }

  /** A whitespace suffix disappears under `trimEnd`. */
  lemma {:induction false} TrimEndPadding(x: string, ws: string)
    requires AllSpace(ws)
    ensures TrimEnd(x + ws) == TrimEnd(x)
    decreases |ws|
  {
    if ws == [] {
      assert x + ws == x;
    } else {
      assert (x + ws)[|x + ws| - 1] == ws[|ws| - 1];
      assert (x + ws)[..|x + ws| - 1] == x + ws[..|ws| - 1];
      TrimEndPadding(x, ws[..|ws| - 1]);
    }
  }

  /** `trimStart` of a concatenation: the right part survives whole once the left part has content. */
  lemma {:induction false} TrimStartAppend(x: string, y: string)
    ensures TrimStart(x + y) == if TrimStart(x) == [] then TrimStart(y) else TrimStart(x) + y
    decreases |x|
  {
    if x == [] {
      assert x + y == y;
    } else if IsSpace(x[0]) {
      assert (x + y)[1..] == x[1..] + y;
      TrimStartAppend(x[1..], y);
    } else {
      assert (x + y)[0] == x[0];
    }
  }

  /** Surrounding whitespace does not change what `trim` returns. */
  lemma TrimPadding(ws1: string, x: string, ws2: string)
    requires AllSpace(ws1) && AllSpace(ws2)
    ensures Trim(ws1 + x + ws2) == Trim(x)
  {
    assert ws1 + x + ws2 == ws1 + (x + ws2);
    TrimStartPadding(ws1, x + ws2);
    TrimStartAppend(x, ws2);
    if TrimStart(x) == [] {
      assert TrimStart(ws2) == [];
    } else {
      TrimEndPadding(TrimStart(x), ws2);
    }
  }

  /** `trim` is idempotent. */
  lemma TrimIdempotent(s: string)
    ensures Trim(Trim(s)) == Trim(s)
  {
  }

  /** `n` starts at position `i` of `h`. */
  predicate Occurs(h: string, n: string, i: nat) {
    i + |n| <= |h| && h[i..i + |n|] == n
  }

  /**
   * `h.includes(n)`, as the search `String.prototype.indexOf` performs:
   * try every start position from `i` on.
   */
  predicate IncludesFrom(h: string, n: string, i: nat)
    decreases |h| - i
  {
    i + |n| <= |h| && (h[i..i + |n|] == n || IncludesFrom(h, n, i + 1))
  }

  predicate Contains(h: string, n: string) {
    IncludesFrom(h, n, 0)
  }

  /** The search finds an occurrence at or after `i` exactly when there is one. */
  lemma {:induction false} IncludesFromIff(h: string, n: string, i: nat)
    ensures IncludesFrom(h, n, i) <==> exists j: nat :: i <= j <= |h| && Occurs(h, n, j)
    decreases |h| - i
  {
    if i + |n| <= |h| {
      IncludesFromIff(h, n, i + 1);
      if h[i..i + |n|] == n {
        assert Occurs(h, n, i);
      } else {
        assert forall j: nat :: i <= j <= |h| && Occurs(h, n, j) ==> i + 1 <= j;
      }
    } else {
      assert forall j: nat :: i <= j ==> !Occurs(h, n, j);
    }
  }

  /** `includes` holds exactly when the needle occurs somewhere. */
  lemma ContainsIff(h: string, n: string)
    ensures Contains(h, n) <==> exists i: nat :: i <= |h| && Occurs(h, n, i)
  {
    IncludesFromIff(h, n, 0);
  }

  lemma ContainsAt(h: string, n: string, i: nat)
    requires Occurs(h, n, i)
    ensures Contains(h, n)
  {
    ContainsIff(h, n);
  }

  lemma OccurrenceOf(h: string, n: string) returns (i: nat)
    requires Contains(h, n)
    ensures i <= |h| && Occurs(h, n, i)
  {
    ContainsIff(h, n);
    i :| i <= |h| && Occurs(h, n, i);
  }

  /** An unanchored regular expression made of literal alternatives: some alternative occurs. */
  predicate ContainsAny(h: string, ns: seq<string>)
    decreases |ns|
  {
    |ns| > 0 && (Contains(h, ns[0]) || ContainsAny(h, ns[1..]))
  }

  /** `ContainsAny` holds exactly when one of the alternatives occurs. */
  lemma {:induction false} ContainsAnyIff(h: string, ns: seq<string>)
    ensures ContainsAny(h, ns) <==> exists k :: 0 <= k < |ns| && Contains(h, ns[k])
    decreases |ns|
  {
    if |ns| > 0 {
      ContainsAnyIff(h, ns[1..]);
      if exists k :: 0 <= k < |ns| && Contains(h, ns[k]) {
        var k :| 0 <= k < |ns| && Contains(h, ns[k]);
        if k > 0 {
          assert ns[1..][k - 1] == ns[k];
        }
      }
      if exists k :: 0 <= k < |ns[1..]| && Contains(h, ns[1..][k]) {
        var k :| 0 <= k < |ns[1..]| && Contains(h, ns[1..][k]);
        assert ns[k + 1] == ns[1..][k];
      }
    }
  }

  /** Substring containment is transitive. */
  lemma ContainsTransitive(h: string, m: string, n: string)
    requires Contains(h, m) && Contains(m, n)
    ensures Contains(h, n)
  {
    var i := OccurrenceOf(h, m);
    var j := OccurrenceOf(m, n);
    assert forall k :: 0 <= k < |m| ==> h[i + k] == m[k] by {
      forall k | 0 <= k < |m| ensures h[i + k] == m[k] {
        assert h[i..i + |m|][k] == h[i + k];
      }
    }
    assert h[i + j..i + j + |n|] == n by {
      forall k | 0 <= k < |n| ensures h[i + j..i + j + |n|][k] == n[k] {
        assert m[j..j + |n|][k] == m[j + k];
      }
    }
    ContainsAt(h, n, i + j);
  }

  /** Every string contains its own prefixes. */
  lemma ContainsPrefix(h: string, n: string)
    requires |n| <= |h| && h[..|n|] == n
    ensures Contains(h, n)
  {
    ContainsAt(h, n, 0);
  }

  /** Nothing non-empty occurs in the empty string. */
  lemma EmptyContainsNothing(n: string)
    requires n != []
    ensures !Contains([], n)
  {
    ContainsIff([], n);
  }

  /** No alternative made of non-empty needles occurs in the empty text. */
  lemma {:induction false} EmptyContainsNone(ns: seq<string>)
    requires forall k :: 0 <= k < |ns| ==> ns[k] != []
    ensures !ContainsAny([], ns)
    decreases |ns|
  {
    if |ns| > 0 {
      EmptyContainsNothing(ns[0]);
      EmptyContainsNone(ns[1..]);
    }
  }

  /** `trimStart` keeps every occurrence of a needle that does not start with whitespace. */
  lemma ContainsAfterTrimStart(s: string, n: string)
    requires Contains(s, n)
    requires n != [] && !IsSpace(n[0])
    ensures Contains(TrimStart(s), n)
  {
    var i := OccurrenceOf(s, n);
    var t := TrimStart(s);
    var a := |s| - |t|;
    assert s[i] == n[0] by {
      assert s[i..i + |n|][0] == s[i];
    }
    forall k | 0 <= k < |n| ensures t[i - a + k] == n[k] {
      assert t[i - a + k] == s[i + k];
      assert s[i..i + |n|][k] == s[i + k];
    }
    assert t[i - a..i - a + |n|] == n;
    ContainsAt(t, n, i - a);
  }

  /** `trimEnd` keeps every occurrence of a needle that does not end with whitespace. */
  lemma ContainsAfterTrimEnd(s: string, n: string)
    requires Contains(s, n)
    requires n != [] && !IsSpace(n[|n| - 1])
    ensures Contains(TrimEnd(s), n)
  {
    var i := OccurrenceOf(s, n);
    var r := TrimEnd(s);
    var last := i + |n| - 1;
    assert s[last] == n[|n| - 1] by {
      assert s[i..i + |n|][|n| - 1] == s[last];
    }
    forall k | 0 <= k < |n| ensures r[i + k] == n[k] {
      assert r[i + k] == s[i + k];
      assert s[i..i + |n|][k] == s[i + k];
    }
    assert r[i..i + |n|] == n;
    ContainsAt(r, n, i);
  }

  /**
   * Trimming cannot destroy an occurrence of a needle that neither starts nor
   * ends with whitespace: the stripped ends are all whitespace.
   */
  lemma ContainsAfterTrim(s: string, n: string)
    requires Contains(s, n)
    requires n != [] && !IsSpace(n[0]) && !IsSpace(n[|n| - 1])
    ensures Contains(Trim(s), n)
  {
    ContainsAfterTrimStart(s, n);
    ContainsAfterTrimEnd(TrimStart(s), n);
  }

  /** A needle with a character the haystack lacks does not occur in it. */
  lemma NotContainsByAbsent(h: string, n: string, d: nat)
    requires d < |n| && n[d] !in h
    ensures !Contains(h, n)
  {
    ContainsIff(h, n);
    forall i: nat | i <= |h| ensures !Occurs(h, n, i) {
      if i + |n| <= |h| {
        assert h[i..i + |n|][d] == h[i + d];
      }
    }
  }

  /**
   * A needle does not occur when its character `n[d]` stands only at `p` in
   * the haystack, so that an occurrence would have to start at `p - d`, and
   * either no occurrence fits there or the characters at offset `e` differ.
   */
  lemma NotContainsByAnchor(h: string, n: string, d: nat, p: nat, e: nat)
    requires d < |n| && p < |h| && h[p] == n[d]
    requires n[d] !in h[..p] && n[d] !in h[p + 1..]
    requires e < |n|
    requires p < d || p - d + |n| > |h| || h[p - d + e] != n[e]
    ensures !Contains(h, n)
  {
    ContainsIff(h, n);
  }
}
