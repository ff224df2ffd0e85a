/** The two string operations the admin searches use: `toLowerCase` and
    `includes`. Lower-casing is modelled on the ASCII letters only. */
module Text {

  predicate IsUpper(c: char)
  {
    'A' <= c <= 'Z'
  }

  /** An ASCII capital becomes the small letter 32 code points on, `'A'` to `'a'`. */
  function LowerChar(c: char): (l: char)
    ensures IsUpper(c) ==> 'a' <= l <= 'z' && l as int - c as int == 'a' as int - 'A' as int
    ensures !IsUpper(c) ==> l == c
  {
    if IsUpper(c) then (c as int + 32) as char else c
  }

  /** `s.toLowerCase()`, restricted to ASCII letters. */
  function Lower(s: string): (r: string)
    ensures |r| == |s|
    ensures forall i :: 0 <= i < |r| ==> r[i] == LowerChar(s[i])
    ensures forall i :: 0 <= i < |r| ==> !IsUpper(r[i])
    ensures forall i :: 0 <= i < |r| ==> IsUpper(s[i]) || r[i] == s[i]
  {
    if s == [] then [] else [LowerChar(s[0])] + Lower(s[1..])
  }

  /** Lower-casing twice changes nothing more. */
  lemma {:induction false} LowerIdempotent(s: string)
    ensures Lower(Lower(s)) == Lower(s)
  {
    if s != [] {
      LowerIdempotent(s[1..]);
    }
  }

  predicate StartsWith(s: string, prefix: string)
  {
    |prefix| <= |s| && s[..|prefix|] == prefix
  }

  /** `s.includes(sub)`: `sub` occurs in `s` at some position. */
  predicate Includes(s: string, sub: string)
    decreases |s|
  {
    StartsWith(s, sub) || (s != [] && Includes(s[1..], sub))
  }

  /** `Includes` agrees with the positional reading of "occurs in". */
  lemma {:induction false} IncludesAt(s: string, sub: string)
    ensures Includes(s, sub) <==> exists i :: 0 <= i <= |s| && StartsWith(s[i..], sub)
  {
    if s != [] {
      IncludesAt(s[1..], sub);
      if Includes(s[1..], sub) {
        var i :| 0 <= i <= |s[1..]| && StartsWith(s[1..][i..], sub);
        assert s[1..][i..] == s[i + 1..];
      }
      if i :| 0 <= i <= |s| && StartsWith(s[i..], sub) {
        if i > 0 {
          assert s[1..][i - 1..] == s[i..];
        }
      }
    } else {
      assert s[0..] == s;
      if StartsWith(s, sub) {
        assert StartsWith(s[0..], sub);
      }
    }
  }

  /** The empty string occurs in every string, so an empty search matches everything. */
  lemma EmptyIncluded(s: string)
    ensures Includes(s, "")
  {
    assert StartsWith(s, "");
  }
}
