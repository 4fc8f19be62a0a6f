/** The two JavaScript string operations the message router relies on:
    `String.prototype.toLowerCase` (over ASCII letters) and
    `String.prototype.includes`, with a reference definition of substring
    occurrence by index that `Includes` is proved to agree with. */
module JsString {

  /** Lowercases one ASCII letter and leaves every other character alone. */
  function LowerChar(c: char): (r: char)
    ensures 'A' <= c <= 'Z' ==> 'a' <= r <= 'z' && r as int - c as int == 32
    ensures !('A' <= c <= 'Z') ==> r == c
  {
    if 'A' <= c <= 'Z' then (c as int - 'A' as int + 'a' as int) as char else c
  }

  /** `s.toLowerCase()`: the same length, lowercased character by character. */
  function Lower(s: string): (r: string)
    ensures |r| == |s|
    ensures forall i :: 0 <= i < |s| ==> r[i] == LowerChar(s[i])
  {
    if s == [] then [] else [LowerChar(s[0])] + Lower(s[1..])
  }

  /** A string that lowercasing leaves unchanged. */
  predicate IsLower(s: string) {
    forall i :: 0 <= i < |s| ==> !('A' <= s[i] <= 'Z')
  }

  lemma LowerIsLower(s: string)
    ensures IsLower(Lower(s))
    ensures IsLower(s) <==> Lower(s) == s
  {
    if IsLower(s) {
      assert forall i :: 0 <= i < |s| ==> Lower(s)[i] == s[i];
    }
  }

  /** Lowercasing works piece by piece. */
  lemma LowerAppend(a: string, b: string)
    ensures Lower(a + b) == Lower(a) + Lower(b)
  {
  }

  /** Lowercasing twice is lowercasing once. */
  lemma LowerIdempotent(s: string)
    ensures Lower(Lower(s)) == Lower(s)
  {
    LowerIsLower(s);
    LowerIsLower(Lower(s));
  }

  /** Two characters that are equal or are the same ASCII letter in the other case. */
  predicate SameIgnoringCase(x: char, y: char) {
    || x == y
    || ('A' <= x <= 'Z' && y as int == x as int + 32)
    || ('A' <= y <= 'Z' && x as int == y as int + 32)
  }

  /** Two strings that differ at most in the case of their ASCII letters. */
  predicate EqualIgnoringCase(a: string, b: string) {
    |a| == |b| && forall i :: 0 <= i < |a| ==> SameIgnoringCase(a[i], b[i])
  }

  /** Characters that differ only in case lowercase to the same character. */
  lemma SameIgnoringCaseLowerChar(x: char, y: char)
    requires SameIgnoringCase(x, y)
    ensures LowerChar(x) == LowerChar(y)
  {
  }

  /** Strings that differ only in case have the same lowercase form. */
  lemma EqualIgnoringCaseLower(a: string, b: string)
    requires EqualIgnoringCase(a, b)
    ensures Lower(a) == Lower(b)
  {
    var la, lb := Lower(a), Lower(b);
    forall i | 0 <= i < |a|
      ensures la[i] == lb[i]
    {
      SameIgnoringCaseLowerChar(a[i], b[i]);
    }
    assert la == lb;
  }

  /** `s` begins with `p`. */
  predicate StartsWith(s: string, p: string) {
    |p| <= |s| && s[..|p|] == p
  }

  /** `s.includes(p)`: tries every start position from the left. */
  predicate Includes(s: string, p: string)
    decreases |s|
  {
    StartsWith(s, p) || (|s| > 0 && Includes(s[1..], p))
  }

  /** Reference definition: `p` occurs in `s` starting at index `i`. */
  ghost predicate OccursAt(s: string, p: string, i: int) {
    0 <= i && i + |p| <= |s| && s[i..i + |p|] == p
  }

  ghost predicate Occurs(s: string, p: string) {
    exists i :: OccursAt(s, p, i)
  }

  /** An occurrence in the tail of `s` is an occurrence in `s` one index later. */
  lemma OccursAtTail(s: string, p: string, i: int)
    requires |s| > 0 && 0 <= i
    ensures OccursAt(s[1..], p, i) <==> OccursAt(s, p, i + 1)
  {
    if i + |p| <= |s| - 1 {
      assert s[1..][i..i + |p|] == s[i + 1..i + 1 + |p|];
    }
  }

  /** `Includes` finds exactly the occurrences of the reference definition. */
  lemma {:induction false} IncludesIffOccurs(s: string, p: string)
    ensures Includes(s, p) <==> Occurs(s, p)
    decreases |s|
  {
    if StartsWith(s, p) {
      assert OccursAt(s, p, 0);
    } else if |s| == 0 {
    } else {
      IncludesIffOccurs(s[1..], p);
      if Occurs(s[1..], p) {
        var i :| OccursAt(s[1..], p, i);
        OccursAtTail(s, p, i);
      }
      if Occurs(s, p) {
        var i :| OccursAt(s, p, i);
        if i != 0 {
          OccursAtTail(s, p, i - 1);
        }
      }
    }
  }

  /** Whatever is found in `m` is found in any string that contains `m`. */
  lemma IncludesInMiddle(a: string, m: string, b: string, p: string)
    requires Includes(m, p)
    ensures Includes(a + m + b, p)
  {
    IncludesIffOccurs(m, p);
    var i :| OccursAt(m, p, i);
    var s := a + m + b;
    assert s[|a| + i..|a| + i + |p|] == m[i..i + |p|];
    assert OccursAt(s, p, |a| + i);
    IncludesIffOccurs(s, p);
  }

  /** A string includes itself wherever it is placed. */
  lemma IncludesPart(a: string, m: string, b: string)
    ensures Includes(a + m + b, m)
  {
    var s := a + m + b;
    assert s[|a|..|a| + |m|] == m;
    assert OccursAt(s, m, |a|);
    IncludesIffOccurs(s, m);
  }

  /** A string includes its own prefixes, whatever follows it. */
  lemma IncludesOpening(s: string, p: string, rest: string)
    requires StartsWith(s, p)
    ensures Includes(s + rest, p)
  {
    assert (s + rest)[..|p|] == s[..|p|];
  }

  /** A text that includes a key also includes every prefix of that key. */
  lemma IncludesPrefix(s: string, key: string, prefix: string)
    requires StartsWith(key, prefix)
    requires Includes(s, key)
    ensures Includes(s, prefix)
  {
    IncludesIffOccurs(s, key);
    var i :| OccursAt(s, key, i);
    assert s[i..i + |prefix|] == s[i..i + |key|][..|prefix|];
    assert OccursAt(s, prefix, i);
    IncludesIffOccurs(s, prefix);
  }
}
