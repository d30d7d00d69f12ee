/** The preview text and reading time shown on a blog card (components/BlogCard.tsx). */
module BlogCard {
  import opened Text
  import opened Utils

  /** Length the card cuts the stripped preview to. */
  const PREVIEW_LENGTH: nat := 150

  /** The characters `/[#*\[\]()]/g` removes. */
  predicate IsMarkup(c: char) {
    c == '#' || c == '*' || c == '[' || c == ']' || c == '(' || c == ')'
  }

  /** `content.replace(/[#*\[\]()]/g, '')`: every markup character removed, the rest kept in order. */
  function StripMarkup(s: string): (r: string)
    ensures |r| <= |s|
    ensures forall k :: 0 <= k < |r| ==> !IsMarkup(r[k])
    ensures forall c :: !IsMarkup(c) ==> multiset(r)[c] == multiset(s)[c]
    ensures (forall k :: 0 <= k < |s| ==> !IsMarkup(s[k])) ==> r == s
    decreases |s|
  {
    if s == [] then []
    else
      var rest := StripMarkup(s[1..]);
      assert s == [s[0]] + s[1..];
      if IsMarkup(s[0]) then rest else [s[0]] + rest
  }

  /** A single character is dropped exactly when it is a markup character. */
  lemma StripOne(c: char)
    ensures StripMarkup([c]) == if IsMarkup(c) then [] else [c]
  {
  }

  /**
   * Stripping works piece by piece: with `StripOne` this fixes the result on
   * every input, so the kept characters stay in their original order.
   */
  lemma {:induction false} StripAppend(a: string, b: string)
    ensures StripMarkup(a + b) == StripMarkup(a) + StripMarkup(b)
    decreases |a|
  {
    if a == [] {
      assert a + b == b;
    } else {
      assert (a + b)[0] == a[0] && (a + b)[1..] == a[1..] + b;
      StripAppend(a[1..], b);
    }
  }

  /** What the card displays. */
  datatype Card = Card(preview: string, readingTime: int)

  /** The card's preview and reading time for a blog's raw content. */
  function CardFor(content: string): (card: Card)
    ensures card.readingTime == CalculateReadingTime(content) && card.readingTime >= 1
  {
    Card(TruncateContent(StripMarkup(content), PREVIEW_LENGTH), CalculateReadingTime(content))
  }

  /** Truncation only cuts and appends `...`, so it adds no markup character. */
  lemma TruncateAddsNoMarkup(s: string, n: nat)
    requires forall k :: 0 <= k < |s| ==> !IsMarkup(s[k])
    ensures var t := TruncateContent(s, n); forall k :: 0 <= k < |t| ==> !IsMarkup(t[k])
  {
    if |s| > n {
      var head := s[..n];
      assert forall k :: 0 <= k < |head| ==> head[k] == s[k];
      assert TruncateContent(s, n) == head + "...";
    }
  }

  /**
   * The preview holds no markup character, is at most 153 characters long,
   * and is the whole stripped text when that fits in 150.
   */
  lemma PreviewShape(content: string)
    ensures var p := CardFor(content).preview;
      && (forall k :: 0 <= k < |p| ==> !IsMarkup(p[k]))
      && |p| <= PREVIEW_LENGTH + 3
      && (|StripMarkup(content)| <= PREVIEW_LENGTH ==> p == StripMarkup(content))
  {
    TruncateAddsNoMarkup(StripMarkup(content), PREVIEW_LENGTH);
  }

  /** Stripping twice removes nothing more. */
  lemma StripIdempotent(s: string)
    ensures StripMarkup(StripMarkup(s)) == StripMarkup(s)
  {
  }
}
