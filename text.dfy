/** String operations the store and the responder rely on: the case fold
    behind SQL `LIKE` and Python's `.lower()`, substring containment, the
    code-point ordering used by `ORDER BY` and `sorted`, and the last word
    of `str.split()`. Case folding and white space are ASCII only. */
module Text {
  import opened Util

  function LowerChar(c: char): char
  {
    if 'A' <= c <= 'Z' then (c as int + 32) as char else c
  }

  function UpperChar(c: char): char
  {
    if 'a' <= c <= 'z' then (c as int - 32) as char else c
  }

  function Lower(s: string): string
  {
    Map(LowerChar, s)
  }

  /** Python's `str.capitalize()`: first character upper case, the rest lower case. */
  function Capitalize(s: string): (r: string)
    ensures |r| == |s|
    ensures Lower(r) == Lower(s)
    ensures s != [] ==> !('a' <= r[0] <= 'z')
    ensures forall i :: 1 <= i < |r| ==> !('A' <= r[i] <= 'Z')
  {
    if s == [] then [] else [UpperChar(s[0])] + Lower(s[1..])
  }

  predicate IsPrefix(p: string, s: string)
  {
    |p| <= |s| && s[..|p|] == p
  }

  /** `p` occurs in `s` as a contiguous substring. */
  predicate Contains(s: string, p: string)
  {
    IsPrefix(p, s) || (s != [] && Contains(s[1..], p))
  }

  /** `p` occurs in `s` starting at position `k`. */
  predicate OccursAt(s: string, p: string, k: int)
  {
    0 <= k && k + |p| <= |s| && s[k..k + |p|] == p
  }

  lemma {:induction false} ContainsAt(s: string, p: string)
    ensures Contains(s, p) <==> exists k :: OccursAt(s, p, k)
  {
    if s != [] {
      ContainsAt(s[1..], p);
      if Contains(s[1..], p) {
        var k :| OccursAt(s[1..], p, k);
        assert s[k + 1..k + 1 + |p|] == s[1..][k..k + |p|];
        assert OccursAt(s, p, k + 1);
      }
      if exists k :: OccursAt(s, p, k) {
        var k :| OccursAt(s, p, k);
        if k > 0 {
          assert s[1..][k - 1..k - 1 + |p|] == s[k..k + |p|];
          assert OccursAt(s[1..], p, k - 1);
        }
      }
    }
    if IsPrefix(p, s) {
      assert OccursAt(s, p, 0);
    }
  }

  /** SQL `s LIKE '%pattern%'` for a pattern without `%` or `_`, and Python's
      `pattern.lower() in s.lower()`. */
  predicate Like(s: string, pattern: string)
  {
    Contains(Lower(s), Lower(pattern))
  }

  /** Code-point lexicographic order (Python string comparison; SQLite's
      BINARY collation compares UTF-8 bytes, which orders code points alike). */
  predicate StrLe(a: string, b: string)
  {
    a == [] || (b != [] && (a[0] < b[0] || (a[0] == b[0] && StrLe(a[1..], b[1..]))))
  }

  lemma {:induction false} StrLeTotal(a: string, b: string)
    ensures StrLe(a, b) || StrLe(b, a)
  {
    if a != [] && b != [] && a[0] == b[0] {
      StrLeTotal(a[1..], b[1..]);
    }
  }

  lemma {:induction false} StrLeTrans(a: string, b: string, c: string)
    requires StrLe(a, b) && StrLe(b, c)
    ensures StrLe(a, c)
  {
    if a != [] && b != [] && c != [] && a[0] == b[0] == c[0] {
      StrLeTrans(a[1..], b[1..], c[1..]);
    }
  }

  /** The characters below 128 that Python's `str.split()` separates on:
      space, tab, line feed, vertical tab, form feed, carriage return and the
      four information separators 0x1C-0x1F. */
  predicate IsSpace(c: char)
  {
    c == ' ' || c == '\t' || c == '\n' || c == '\r' || c == '\U{B}' || c == '\U{C}' ||
    c == '\U{1C}' || c == '\U{1D}' || c == '\U{1E}' || c == '\U{1F}'
  }

  function TrimEnd(s: string): string
  {
    if s != [] && IsSpace(s[|s| - 1]) then TrimEnd(s[..|s| - 1]) else s
  }

  function TrailingWord(s: string): string
  {
    if s != [] && !IsSpace(s[|s| - 1]) then TrailingWord(s[..|s| - 1]) + [s[|s| - 1]] else []
  }

  /** `s.split()[-1]`, or None where Python raises IndexError because `s`
      has no word at all. */
  function LastWord(s: string): Option<string>
  {
    var t := TrimEnd(s);
    if t == [] then None else Some(TrailingWord(t))
  }

  lemma {:induction false} TrimEndShape(s: string)
    ensures |TrimEnd(s)| <= |s| && TrimEnd(s) == s[..|TrimEnd(s)|]
    ensures TrimEnd(s) != [] ==> !IsSpace(TrimEnd(s)[|TrimEnd(s)| - 1])
    ensures forall i :: |TrimEnd(s)| <= i < |s| ==> IsSpace(s[i])
  {
    if s != [] && IsSpace(s[|s| - 1]) {
      TrimEndShape(s[..|s| - 1]);
    }
  }

  lemma {:induction false} TrailingWordShape(s: string)
    ensures |TrailingWord(s)| <= |s|
    ensures TrailingWord(s) == s[|s| - |TrailingWord(s)|..]
    ensures forall c :: c in TrailingWord(s) ==> !IsSpace(c)
    ensures |TrailingWord(s)| < |s| ==> IsSpace(s[|s| - |TrailingWord(s)| - 1])
  {
    if s != [] && !IsSpace(s[|s| - 1]) {
      var init := s[..|s| - 1];
      TrailingWordShape(init);
      assert s[|s| - |TrailingWord(s)|..] == init[|init| - |TrailingWord(init)|..] + [s[|s| - 1]];
    }
  }

  /** `LastWord(s)` is the last maximal run of non-space characters of `s`:
      it is non-empty, holds no space, is preceded by a space or the start of
      `s`, and only spaces follow it. There is none exactly when `s` is all
      spaces. */
  lemma LastWordIsLast(s: string)
    ensures LastWord(s).None? <==> forall i :: 0 <= i < |s| ==> IsSpace(s[i])
    ensures LastWord(s).Some? ==>
      var w := LastWord(s).value;
      w != [] && (forall c :: c in w ==> !IsSpace(c)) &&
      exists k :: OccursAt(s, w, k) &&
        (k == 0 || IsSpace(s[k - 1])) &&
        forall i :: k + |w| <= i < |s| ==> IsSpace(s[i])
  {
    var t := TrimEnd(s);
    TrimEndShape(s);
    if t != [] {
      var w := TrailingWord(t);
      TrailingWordShape(t);
      assert w == TrailingWord(t[..|t| - 1]) + [t[|t| - 1]];
      var k := |t| - |w|;
      assert s[k..k + |w|] == t[k..] == w;
      assert OccursAt(s, w, k);
      assert k > 0 ==> s[k - 1] == t[k - 1];
    } else {
      assert forall i :: 0 <= i < |s| ==> IsSpace(s[i]);
    }
  }

  /** Python truthiness of an optional text column: shown only when non-empty. */
  function NonEmpty(s: string): (r: Option<string>)
    ensures r.Some? <==> s != []
    ensures r.Some? ==> r.value == s
  {
    if s == [] then None else Some(s)
  }

  /** Python truthiness of an optional text value (`if x:`): present and non-empty. */
  predicate Given(o: Option<string>)
  {
    o.Some? && o.value != []
  }

  lemma {:induction false} LowerAppend(a: string, b: string)
    ensures Lower(a + b) == Lower(a) + Lower(b)
  {
    assert forall i :: 0 <= i < |a + b| ==> Lower(a + b)[i] == (Lower(a) + Lower(b))[i];
  }

  /** A name matches `LIKE '%a%'` when it starts with `a`. */
  lemma LikeOfExtension(a: string, b: string)
    ensures Like(a + b, a)
  {
    LowerAppend(a, b);
    assert Lower(a + b)[..|Lower(a)|] == Lower(a);
    assert OccursAt(Lower(a + b), Lower(a), 0);
    ContainsAt(Lower(a + b), Lower(a));
  }

  /** A text matches `LIKE '%w%'` wherever `w` occurs in it. */
  lemma OccursLike(s: string, w: string, k: int)
    requires OccursAt(s, w, k)
    ensures Like(s, w)
  {
    assert Lower(s)[k..k + |w|] == Lower(w) by {
      forall i | 0 <= i < |w| ensures Lower(s)[k..k + |w|][i] == Lower(w)[i] {
        assert s[k..k + |w|][i] == w[i];
      }
    }
    assert OccursAt(Lower(s), Lower(w), k);
    ContainsAt(Lower(s), Lower(w));
  }
}
