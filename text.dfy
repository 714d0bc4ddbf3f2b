/** The JavaScript string operations the views rely on: `toLowerCase`,
    `trim` and `includes`, over strings as sequences of characters. */
module Text {

  /** The characters `String.prototype.trim` removes: the ECMAScript
      WhiteSpace and LineTerminator code points. */
  predicate IsWhitespace(c: char)
  {
    c == ' ' || c == '\t' || c == '\n' || c == '\r' || c == '\U{B}' || c == '\U{C}' ||
    c == '\U{A0}' || c == '\U{1680}' || ('\U{2000}' <= c <= '\U{200A}') ||
    c == '\U{2028}' || c == '\U{2029}' || c == '\U{202F}' || c == '\U{205F}' ||
    c == '\U{3000}' || c == '\U{FEFF}'
  }

  /** Lower-case mapping of one character (ASCII letters only). */
  function LowerChar(c: char): (d: char)
    ensures 'A' <= c <= 'Z' ==> 'a' <= d <= 'z'
    ensures !('A' <= c <= 'Z') ==> d == c
  {
    if 'A' <= c <= 'Z' then (c as int + 32) as char else c
  }

  /** `s.toLowerCase()`, character by character (see `LowerSpec`). */
  function Lower(s: string): (r: string)
    ensures |r| == |s|
  {
    seq(|s|, i requires 0 <= i < |s| => LowerChar(s[i]))
  }

  function TrimStart(s: string): (r: string)
    ensures |r| <= |s| && r == s[|s| - |r|..]
    ensures r != [] ==> !IsWhitespace(r[0])
    ensures forall i :: 0 <= i < |s| - |r| ==> IsWhitespace(s[i])
  {
    if s != [] && IsWhitespace(s[0]) then TrimStart(s[1..]) else s
  }

  function TrimEnd(s: string): (r: string)
    ensures |r| <= |s| && r == s[..|r|]
    ensures r != [] ==> !IsWhitespace(r[|r| - 1])
    ensures forall i :: |r| <= i < |s| ==> IsWhitespace(s[i])
  {
    if s != [] && IsWhitespace(s[|s| - 1]) then TrimEnd(s[..|s| - 1]) else s
  }

  /** `s.trim()`: `s` with its leading and trailing whitespace removed, and
      nothing else (see `TrimSpec`). */
  function Trim(s: string): (r: string)
  {
    TrimEnd(TrimStart(s))
  }

  /** `s.includes(t)`: `t` occurs in `s` as a contiguous block. The empty
      text occurs in every text, and no text occurs in a shorter one. */
  predicate Contains(s: string, t: string)
    ensures t == [] ==> Contains(s, t)
    ensures Contains(s, t) ==> |t| <= |s|
    decreases |s|
  {
    (|t| <= |s| && s[..|t|] == t) || (s != [] && Contains(s[1..], t))
  }

  /** `t` occurs in `s` starting at offset `k`. */
  predicate OccursAt(s: string, t: string, k: nat)
  {
    k + |t| <= |s| && s[k..k + |t|] == t
  }

  lemma {:induction false} ContainsAt(s: string, t: string, k: nat)
    requires OccursAt(s, t, k)
    ensures Contains(s, t)
    decreases k
  {
    if k > 0 {
      assert s[1..][k - 1..k - 1 + |t|] == s[k..k + |t|];
      ContainsAt(s[1..], t, k - 1);
    }
  }

  lemma {:induction false} ContainsWitness(s: string, t: string) returns (k: nat)
    requires Contains(s, t)
    ensures OccursAt(s, t, k)
    decreases |s|
  {
    if |t| <= |s| && s[..|t|] == t {
      k := 0;
    } else {
      var k' := ContainsWitness(s[1..], t);
      k := k' + 1;
      assert s[k..k + |t|] == s[1..][k'..k' + |t|];
    }
  }

  /** `includes` is exactly "occurs at some offset". */
  lemma ContainsIff(s: string, t: string)
    ensures Contains(s, t) <==> exists k: nat :: OccursAt(s, t, k)
  {
    if Contains(s, t) {
      var k := ContainsWitness(s, t);
    }
    if exists k: nat :: OccursAt(s, t, k) {
      var k: nat :| OccursAt(s, t, k);
      ContainsAt(s, t, k);
    }
  }

  /** The trimmed text occurs in the original with only whitespace before and
      after it, it neither starts nor ends with whitespace, and it is empty
      exactly when the original is all whitespace. */
  lemma TrimSpec(s: string)
    ensures exists k: nat :: OccursAt(s, Trim(s), k) &&
              (forall i :: 0 <= i < k ==> IsWhitespace(s[i])) &&
              (forall i :: k + |Trim(s)| <= i < |s| ==> IsWhitespace(s[i]))
    ensures Trim(s) != [] ==> !IsWhitespace(Trim(s)[0]) && !IsWhitespace(Trim(s)[|Trim(s)| - 1])
    ensures Trim(s) == [] <==> forall i :: 0 <= i < |s| ==> IsWhitespace(s[i])
  {
    var t := TrimStart(s);
    var k := |s| - |t|;
    assert OccursAt(s, Trim(s), k);
    forall i | k + |Trim(s)| <= i < |s|
      ensures IsWhitespace(s[i])
    {
      assert s[i] == t[i - k];
    }
  }

  lemma LowerCharIdempotent(c: char)
    ensures LowerChar(LowerChar(c)) == LowerChar(c)
  {
  }

  /** Lower-casing twice is lower-casing once. */
  lemma LowerIdempotent(s: string)
    ensures Lower(Lower(s)) == Lower(s)
  {
    forall i | 0 <= i < |s| ensures Lower(Lower(s))[i] == Lower(s)[i] {
      LowerCharIdempotent(s[i]);
    }
  }

  /** Lower-casing neither creates nor removes whitespace. */
  lemma LowerCharWhitespace(c: char)
    ensures IsWhitespace(LowerChar(c)) == IsWhitespace(c)
  {
  }

  /** What lower-casing does: no capital letter is left, each capital becomes
      the same letter in lower case, and every other character stays as it was. */
  lemma LowerSpec(s: string)
    ensures forall i :: 0 <= i < |s| ==> !('A' <= Lower(s)[i] <= 'Z')
    ensures forall i :: 0 <= i < |s| && 'A' <= s[i] <= 'Z' ==>
                        'a' <= Lower(s)[i] <= 'z' && Lower(s)[i] as int - 'a' as int == s[i] as int - 'A' as int
    ensures forall i :: 0 <= i < |s| && !('A' <= s[i] <= 'Z') ==> Lower(s)[i] == s[i]
  {
  }

  /** Lower-casing the text without its first character, or keeping only its
      first `n` characters, is cutting the lower-cased text the same way. */
  lemma LowerDrop(s: string)
    requires s != []
    ensures Lower(s)[1..] == Lower(s[1..])
  {
    forall k | 0 <= k < |s| - 1 ensures Lower(s)[1..][k] == Lower(s[1..])[k] {
      assert Lower(s)[k + 1] == LowerChar(s[k + 1]);
    }
  }

  lemma LowerTake(s: string, n: nat)
    requires n <= |s|
    ensures Lower(s)[..n] == Lower(s[..n])
  {
    forall k | 0 <= k < n ensures Lower(s)[..n][k] == Lower(s[..n])[k] {
      assert Lower(s)[k] == LowerChar(s[k]);
    }
  }

  lemma {:induction false} TrimStartLower(s: string)
    ensures TrimStart(Lower(s)) == Lower(TrimStart(s))
    decreases |s|
  {
    if s != [] {
      assert Lower(s)[0] == LowerChar(s[0]);
      LowerCharWhitespace(s[0]);
      if IsWhitespace(s[0]) {
        LowerDrop(s);
        TrimStartLower(s[1..]);
        assert TrimStart(Lower(s)) == TrimStart(Lower(s)[1..]);
        assert TrimStart(s) == TrimStart(s[1..]);
      } else {
        assert TrimStart(Lower(s)) == Lower(s);
      }
    } else {
      assert Lower(s) == [];
    }
  }

  lemma {:induction false} TrimEndLower(s: string)
    ensures TrimEnd(Lower(s)) == Lower(TrimEnd(s))
    decreases |s|
  {
    if s != [] {
      assert Lower(s)[|s| - 1] == LowerChar(s[|s| - 1]);
      LowerCharWhitespace(s[|s| - 1]);
      if IsWhitespace(s[|s| - 1]) {
        LowerTake(s, |s| - 1);
        TrimEndLower(s[..|s| - 1]);
        assert TrimEnd(Lower(s)) == TrimEnd(Lower(s)[..|s| - 1]);
        assert TrimEnd(s) == TrimEnd(s[..|s| - 1]);
      } else {
        assert TrimEnd(Lower(s)) == Lower(s);
      }
    } else {
      assert Lower(s) == [];
    }
  }

  /** Trimming and lower-casing commute, so `searchTerm.toLowerCase().trim()`
      is empty exactly when `searchTerm.trim()` is. */
  lemma TrimLower(s: string)
    ensures Trim(Lower(s)) == Lower(Trim(s))
    ensures |Trim(Lower(s))| == |Trim(s)|
  {
    TrimStartLower(s);
    TrimEndLower(TrimStart(s));
  }

  /** Leading whitespace never reaches the trimmed text. */
  lemma {:induction false} TrimStartPadding(w: string, s: string)
    requires forall i :: 0 <= i < |w| ==> IsWhitespace(w[i])
    ensures TrimStart(w + s) == TrimStart(s)
    decreases |w|
  {
    if w != [] {
      assert (w + s)[0] == w[0] && IsWhitespace(w[0]);
      assert (w + s)[1..] == w[1..] + s;
      TrimStartPadding(w[1..], s);
      assert TrimStart(w + s) == TrimStart(w[1..] + s);
    } else {
      assert w + s == s;
    }
  }

  /** Trailing whitespace never reaches the trimmed text. */
  lemma {:induction false} TrimEndPadding(s: string, w: string)
    requires forall i :: 0 <= i < |w| ==> IsWhitespace(w[i])
    ensures TrimEnd(s + w) == TrimEnd(s)
    decreases |w|
  {
    if w != [] {
      assert (s + w)[|s + w| - 1] == w[|w| - 1] && IsWhitespace(w[|w| - 1]);
      assert (s + w)[..|s + w| - 1] == s + w[..|w| - 1];
      TrimEndPadding(s, w[..|w| - 1]);
      assert TrimEnd(s + w) == TrimEnd(s + w[..|w| - 1]);
    } else {
      assert s + w == s;
    }
  }

  lemma {:induction false} TrimStartEnd(s: string, w: string)
    requires forall i :: 0 <= i < |w| ==> IsWhitespace(w[i])
    ensures TrimStart(s + w) == TrimStart(s) + w || TrimStart(s) == []
    decreases |s|
  {
    if s != [] && IsWhitespace(s[0]) {
      assert (s + w)[1..] == s[1..] + w;
      TrimStartEnd(s[1..], w);
    }
  }

  /** Whitespace padding on either side of a text does not change its trim. */
  lemma TrimPadding(w1: string, s: string, w2: string)
    requires forall i :: 0 <= i < |w1| ==> IsWhitespace(w1[i])
    requires forall i :: 0 <= i < |w2| ==> IsWhitespace(w2[i])
    ensures Trim(w1 + s + w2) == Trim(s)
  {
    assert w1 + s + w2 == w1 + (s + w2);
    TrimStartPadding(w1, s + w2);
    TrimStartEnd(s, w2);
    if TrimStart(s) == [] {
      assert forall i :: 0 <= i < |s| ==> IsWhitespace(s[i]);
      assert (s + w2) == [] + (s + w2);
      TrimStartPadding(s + w2, []);
      assert s + w2 + [] == s + w2;
      assert TrimStart(s + w2) == [];
    } else {
      TrimEndPadding(TrimStart(s), w2);
    }
  }
}
