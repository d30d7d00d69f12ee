/**
 * String primitives with their JavaScript meaning: the `\s` character class
 * and `trim()`, ASCII `toLowerCase()`, `startsWith`, `includes`, `split` on a
 * single character, and the length of `split(/\s+/)`.
 *
 * A string is a sequence of UTF-16 code units; only characters of the Basic
 * Multilingual Plane occur, so one `char` is one code unit.
 */
module Text {

  /** ECMAScript WhiteSpace and LineTerminator: the `\s` class, also what `trim()` strips. */
  predicate IsSpace(c: char) {
    c == '\t' || c == '\n' || c == '\U{B}' || c == '\U{C}' || c == '\r' || c == ' '
    || c == '\U{A0}' || c == '\U{1680}' || ('\U{2000}' <= c <= '\U{200A}')
    || c == '\U{2028}' || c == '\U{2029}' || c == '\U{202F}' || c == '\U{205F}'
    || c == '\U{3000}' || c == '\U{FEFF}'
  }

  predicate AllSpace(s: string) {
    forall k :: 0 <= k < |s| ==> IsSpace(s[k])
  }

  /** Drops leading whitespace. */
  function TrimStart(s: string): (r: string)
    ensures |r| <= |s| && r == s[|s| - |r|..]
    ensures r == [] || !IsSpace(r[0])
    ensures AllSpace(s[..|s| - |r|])
  {
    if s == [] || !IsSpace(s[0]) then s
    else
      var r := TrimStart(s[1..]);
      TrimStartStep(s, r);
      r
  }

  /** One step of `TrimStart`: a dropped space joins the stripped prefix. */
  lemma TrimStartStep(s: string, r: string)
    requires |s| > 0 && IsSpace(s[0])
    requires |r| <= |s| - 1 && r == s[1..][|s| - 1 - |r|..]
    requires AllSpace(s[1..][..|s| - 1 - |r|])
    ensures r == s[|s| - |r|..]
    ensures AllSpace(s[..|s| - |r|])
  {
    var k := |s| - |r|;
    forall j | 0 <= j < k
      ensures IsSpace(s[j])
    {
      if j > 0 {
        assert s[j] == s[1..][..k - 1][j - 1];
      }
    }
  }

  /** Drops trailing whitespace. */
  function TrimEnd(s: string): (r: string)
    ensures |r| <= |s| && r == s[..|r|]
    ensures r == [] || !IsSpace(r[|r| - 1])
    ensures AllSpace(s[|r|..])
  {
    if s == [] || !IsSpace(s[|s| - 1]) then s
    else
      var r := TrimEnd(s[..|s| - 1]);
      TrimEndStep(s, r);
      r
  }

  /** One step of `TrimEnd`: a dropped space joins the stripped suffix. */
  lemma TrimEndStep(s: string, r: string)
    requires |s| > 0 && IsSpace(s[|s| - 1])
    requires |r| <= |s| - 1 && r == s[..|s| - 1][..|r|]
    requires AllSpace(s[..|s| - 1][|r|..])
    ensures r == s[..|r|]
    ensures AllSpace(s[|r|..])
  {
    forall j | 0 <= j < |s| - |r|
      ensures IsSpace(s[|r|..][j])
    {
      if j < |s| - 1 - |r| {
        assert s[|r|..][j] == s[..|s| - 1][|r|..][j];
      }
    }
  }

  /** Where the trimmed text starts inside `s`. */
  function TrimOffset(s: string): (k: nat)
    ensures k <= |s|
  {
    |s| - |TrimStart(s)|
  }

  /** `s.trim()`: a contiguous piece of `s` with whitespace on neither end. */
  function Trim(s: string): (r: string)
    ensures TrimOffset(s) + |r| <= |s|
    ensures r == s[TrimOffset(s)..TrimOffset(s) + |r|]
    ensures r == [] || (!IsSpace(r[0]) && !IsSpace(r[|r| - 1]))
    ensures AllSpace(s[..TrimOffset(s)]) && AllSpace(s[TrimOffset(s) + |r|..])
  {
    TrimEnd(TrimStart(s))
  }

  /** Trimming leaves nothing exactly when the text is blank. */
  lemma TrimEmptyIffBlank(s: string)
    ensures Trim(s) == [] <==> AllSpace(s)
  {
    var a := TrimStart(s);
    assert AllSpace(a[0..]) ==> a == [];
    assert s[..|s|] == s;
  }

  /** Trimming is idempotent. */
  lemma TrimIdempotent(s: string)
    ensures Trim(Trim(s)) == Trim(s)
  {
    var t := Trim(s);
    assert TrimStart(t) == t;
    assert TrimEnd(t) == t;
  }

  /** `toLowerCase()` on one character (ASCII letters only). */
  function LowerChar(c: char): (r: char)
    ensures 'A' <= c <= 'Z' ==> 'a' <= r <= 'z' && r as int == c as int + 32
    ensures !('A' <= c <= 'Z') ==> r == c
    ensures !('A' <= r <= 'Z')
  {
    if 'A' <= c <= 'Z' then (c as int + 32) as char else c
  }

  /** `s.toLowerCase()`, position by position. */
  function Lower(s: string): (r: string)
    ensures |r| == |s|
    ensures forall k :: 0 <= k < |s| ==> r[k] == LowerChar(s[k])
  {
    seq(|s|, k requires 0 <= k < |s| => LowerChar(s[k]))
  }

  /** Lower-casing twice changes nothing more. */
  lemma LowerIdempotent(s: string)
    ensures Lower(Lower(s)) == Lower(s)
  {
  }

  /** `s.startsWith(p)`. */
  predicate StartsWith(s: string, p: string) {
    |p| <= |s| && s[..|p|] == p
  }

  /** `s.includes(sub)`, searched from the left. */
  predicate Contains(s: string, sub: string)
    decreases |s|
  {
    StartsWith(s, sub) || (|s| > 0 && Contains(s[1..], sub))
  }

  /** `sub` occurs in `s` at position `i`. */
  predicate OccursAt(s: string, sub: string, i: int) {
    0 <= i <= |s| - |sub| && s[i..i + |sub|] == sub
  }

  /** `includes` holds exactly when `sub` occurs at some position of `s`. */
  lemma {:induction false} ContainsIffOccurs(s: string, sub: string)
    ensures Contains(s, sub) <==> exists i :: OccursAt(s, sub, i)
    decreases |s|
  {
    if StartsWith(s, sub) {
      assert OccursAt(s, sub, 0);
    } else if |s| > 0 {
      ContainsIffOccurs(s[1..], sub);
      if exists i :: OccursAt(s, sub, i) {
        var i :| OccursAt(s, sub, i);
        assert i != 0;
        assert s[1..][i - 1..i - 1 + |sub|] == s[i..i + |sub|];
        assert OccursAt(s[1..], sub, i - 1);
      }
      if Contains(s[1..], sub) {
        var i :| OccursAt(s[1..], sub, i);
        assert s[1..][i..i + |sub|] == s[i + 1..i + 1 + |sub|];
        assert OccursAt(s, sub, i + 1);
      }
    } else {
      assert forall i :: !OccursAt(s, sub, i);
    }
  }

  /** `s.split(sep)` for a one-character separator: the pieces between separators. */
  function Split(s: string, sep: char): (r: seq<string>)
    ensures |r| >= 1
    ensures forall k :: 0 <= k < |r| ==> sep !in r[k]
    decreases |s|
  {
    if s == [] then [[]]
    else
      var rest := Split(s[1..], sep);
      if s[0] == sep then [[]] + rest else [[s[0]] + rest[0]] + rest[1..]
  }

  /** `pieces.join(sep)`. */
  function Join(pieces: seq<string>, sep: char): string
    requires |pieces| >= 1
    decreases |pieces|
  {
    if |pieces| == 1 then pieces[0] else pieces[0] + [sep] + Join(pieces[1..], sep)
  }

  /** Splitting and joining again gives back the original string. */
  lemma {:induction false} JoinSplit(s: string, sep: char)
    ensures Join(Split(s, sep), sep) == s
    decreases |s|
  {
    if s != [] {
      JoinSplit(s[1..], sep);
      var rest := Split(s[1..], sep);
      if s[0] == sep {
        assert Split(s, sep)[1..] == rest;
        assert s == [sep] + s[1..];
      } else {
        var r := Split(s, sep);
        assert r[0] == [s[0]] + rest[0];
        if |rest| == 1 {
          assert s == [s[0]] + s[1..];
        } else {
          assert r[1..] == rest[1..];
          assert Join(r, sep) == [s[0]] + (rest[0] + [sep] + Join(rest[1..], sep));
          assert s == [s[0]] + s[1..];
        }
      }
    }
  }

  /** The first piece of a split is the prefix of `s` up to the first separator (or all of `s`). */
  lemma {:induction false} SplitFirstIsPrefix(s: string, sep: char)
    ensures var f := Split(s, sep)[0];
      |f| <= |s| && f == s[..|f|] && sep !in f && (|f| == |s| || s[|f|] == sep)
    decreases |s|
  {
    if s != [] {
      SplitFirstIsPrefix(s[1..], sep);
    }
  }

  /** Whether position `k` of `s` starts a maximal whitespace run. */
  predicate StartsSpaceRun(s: string, k: int)
    requires 0 <= k < |s|
  {
    IsSpace(s[k]) && (k == 0 || !IsSpace(s[k - 1]))
  }

  /** Number of maximal whitespace runs in `s`, i.e. the separators `split(/\s+/)` cuts at. */
  function SpaceRuns(s: string): nat
    decreases |s|
  {
    if s == [] then 0
    else SpaceRuns(s[..|s| - 1]) + (if StartsSpaceRun(s, |s| - 1) then 1 else 0)
  }

  /** Number of maximal runs of non-whitespace characters: the words of `s`. */
  function Words(s: string): nat
    decreases |s|
  {
    if s == [] then 0
    else
      var k := |s| - 1;
      Words(s[..k]) + (if !IsSpace(s[k]) && (k == 0 || IsSpace(s[k - 1])) then 1 else 0)
  }

  /** `s.split(/\s+/).length`: one more piece than there are separating runs. */
  function SplitSpaceCount(s: string): (r: nat)
    ensures r >= 1
  {
    SpaceRuns(s) + 1
  }

  /** `s.trim().split(/\s+/).length`, the word count used for reading time and the editor. */
  function TokenCount(s: string): (r: nat)
    ensures r >= 1
  {
    SplitSpaceCount(Trim(s))
  }

  /** For text that starts with a word, words and separating runs interleave. */
  lemma {:induction false} WordsVersusRuns(s: string)
    requires s != [] && !IsSpace(s[0])
    ensures Words(s) == SpaceRuns(s) + (if IsSpace(s[|s| - 1]) then 0 else 1)
    decreases |s|
  {
    if |s| > 1 {
      var p := s[..|s| - 1];
      assert p[0] == s[0];
      WordsVersusRuns(p);
      assert s[..|s| - 1][|p| - 1] == s[|s| - 2];
    }
  }

  /**
   * The split count is the number of words, except that blank text still
   * splits into one (empty) piece.
   */
  lemma TokenCountIsWords(s: string)
    ensures TokenCount(s) == if Trim(s) == [] then 1 else Words(Trim(s))
  {
    var t := Trim(s);
    assert TokenCount(s) == SpaceRuns(t) + 1;
    if t != [] {
      assert !IsSpace(t[0]) && !IsSpace(t[|t| - 1]);
      WordsVersusRuns(t);
    }
  }
}
