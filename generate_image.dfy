/**
 * The banner route app/api/generate-image/route.ts: it validates the
 * prompt, wraps it in a fixed description, derives a deterministic seed
 * from the prompt's code units and returns an image link with fixed size
 * parameters. Percent-encoding is the parameter `encode`.
 */
module GenerateImage {
  import opened Text
  import Js

  const INVALID_PROMPT: string := "Invalid prompt"
  const SEED_MODULUS: int := 1000000
  const IMAGE_ENDPOINT: string := "https://image.pollinations.ai/prompt/"
  const SIZE_AND_SEED: string := "?width=1280&height=720&seed="

  /** The description template around the prompt, with its line breaks and indentation. */
  const BANNER_HEAD: string := "\n      A stunning, professional blog banner about \""
  const BANNER_TAIL: string :=
    "\".\n      Ultra high quality, 4K resolution, cinematic lighting, vibrant colors.\n"
    + "      Modern minimalist design with perfect composition.\n"
    + "      Wide landscape format (16:9 aspect ratio) banner image.\n"
    + "      Sharp focus, professional photography style, magazine cover quality.\n"
    + "      Trending on ArtStation, detailed, intricate, beautiful, clean aesthetic.\n"
    + "      No text, no watermarks, sharp details, perfect lighting, color graded.\n"
    + "      Masterpiece, award-winning photography, highly detailed and polished.\n    "

  datatype ImageResponse = Image(imageUrl: string) | Failed(status: int, error: string)

  /** `prompt` is a string with some non-whitespace character. */
  predicate ValidPrompt(p: Js.Json) {
    p.JString? && Trim(p.s) != ""
  }

  /** `s.replace(/\n/g, ' ')`. */
  function NewlinesToSpaces(s: string): (r: string)
    ensures |r| == |s| && '\n' !in r
    ensures forall i :: 0 <= i < |s| && s[i] != '\n' ==> r[i] == s[i]
    ensures forall i :: 0 <= i < |s| && s[i] == '\n' ==> r[i] == ' '
  {
    seq(|s|, i requires 0 <= i < |s| => if s[i] == '\n' then ' ' else s[i])
  }

  /** The enhanced prompt: the template filled in, line breaks turned into spaces, then trimmed. */
  function EnhancedPrompt(prompt: string): (r: string)
    ensures '\n' !in r
  {
    var flat := NewlinesToSpaces(BANNER_HEAD + prompt + BANNER_TAIL);
    TrimKeepsNoNewline(flat);
    Trim(flat)
  }

  /** Trimming only drops characters, so it cannot bring back a line break. */
  lemma TrimKeepsNoNewline(s: string)
    requires '\n' !in s
    ensures '\n' !in Trim(s)
  {
    var r := Trim(s);
    forall i | 0 <= i < |r|
      ensures r[i] != '\n'
    {
      assert r[i] == s[TrimOffset(s) + i];
    }
  }

  /** The sum of the prompt's UTF-16 code units. */
  function CodeUnitSum(s: string): nat
    decreases |s|
  {
    if s == [] then 0 else CodeUnitSum(s[..|s| - 1]) + s[|s| - 1] as int
  }

  function Abs(x: int): int {
    if x < 0 then -x else x
  }

  /** `Math.abs(sum % 1000000)`. */
  function Seed(prompt: string): (seed: int)
    ensures 0 <= seed < SEED_MODULUS
  {
    Abs(Js.Rem(CodeUnitSum(prompt), SEED_MODULUS))
  }

  /** The seed loop: adds up the code units one by one, then reduces. */
  method ComputeSeed(prompt: string) returns (seed: int)
    ensures seed == Seed(prompt)
  {
    seed := 0;
    for i := 0 to |prompt|
      invariant seed == CodeUnitSum(prompt[..i])
    {
      assert prompt[..i + 1][..i] == prompt[..i];
      seed := seed + prompt[i] as int;
    }
    assert prompt[..|prompt|] == prompt;
    seed := Abs(Js.Rem(seed, SEED_MODULUS));
  }

  /** The link for an encoded prompt and a seed. */
  function ImageUrl(encoded: string, seed: int): string {
    IMAGE_ENDPOINT + encoded + SIZE_AND_SEED + Js.IntToString(seed)
  }

  /** Reference definition of the route's response. */
  function Respond(prompt: Js.Json, encode: string -> string): ImageResponse {
    if !ValidPrompt(prompt) then Failed(400, INVALID_PROMPT)
    else Image(ImageUrl(encode(EnhancedPrompt(prompt.s)), Seed(prompt.s)))
  }

  /** `POST` with the body's `prompt`. */
  method Post(prompt: Js.Json, encode: string -> string) returns (r: ImageResponse)
    ensures r == Respond(prompt, encode)
  {
    if !prompt.JString? || Trim(prompt.s) == "" {
      return Failed(400, INVALID_PROMPT);
    }
    var enhanced := NewlinesToSpaces(BANNER_HEAD + prompt.s + BANNER_TAIL);
    enhanced := Trim(enhanced);
    var seed := ComputeSeed(prompt.s);
    return Image(IMAGE_ENDPOINT + encode(enhanced) + SIZE_AND_SEED + Js.IntToString(seed));
  }

  lemma {:induction false} SumAppend(a: string, b: string)
    ensures CodeUnitSum(a + b) == CodeUnitSum(a) + CodeUnitSum(b)
    decreases |b|
  {
    if b == [] {
      assert a + b == a;
    } else {
      assert (a + b)[..|a + b| - 1] == a + b[..|b| - 1];
      assert (a + b)[|a + b| - 1] == b[|b| - 1];
      SumAppend(a, b[..|b| - 1]);
    }
  }

  /** The code-unit sum depends only on which characters occur how often. */
  lemma {:induction false} SumOfPermutation(a: string, b: string)
    requires multiset(a) == multiset(b)
    ensures CodeUnitSum(a) == CodeUnitSum(b)
    decreases |a|
  {
    if a != [] {
      var front := a[..|a| - 1];
      var x := a[|a| - 1];
      assert a == front + [x];
      assert x in multiset(b);
      var i :| 0 <= i < |b| && b[i] == x;
      var rest := b[..i] + b[i + 1..];
      assert b == b[..i] + [x] + b[i + 1..];
      assert multiset(a) == multiset(front) + multiset{x};
      assert multiset(b) == multiset(b[..i]) + multiset{x} + multiset(b[i + 1..]);
      assert multiset(rest) == multiset(b[..i]) + multiset(b[i + 1..]);
      assert multiset(front) == multiset(a) - multiset{x};
      assert multiset(rest) == multiset(b) - multiset{x};
      SumOfPermutation(front, rest);
      SumAppend(b[..i], [x]);
      SumAppend(b[..i] + [x], b[i + 1..]);
      SumAppend(b[..i], b[i + 1..]);
    } else {
      assert |b| == |multiset(b)| == 0;
    }
  }

  /** Rearranging the prompt's characters does not change the seed. */
  lemma SeedIgnoresOrder(a: string, b: string)
    requires multiset(a) == multiset(b)
    ensures Seed(a) == Seed(b)
  {
    SumOfPermutation(a, b);
  }

  /**
   * A valid prompt always gets a link with width 1280, height 720 and the
   * prompt's seed, whose digits read back as the seed; an invalid one gets 400.
   */
  lemma LinkCarriesSizeAndSeed(prompt: Js.Json, encode: string -> string) returns (digits: string)
    ensures !ValidPrompt(prompt) ==> Respond(prompt, encode) == Failed(400, INVALID_PROMPT)
    ensures ValidPrompt(prompt) ==> forall i :: 0 <= i < |digits| ==> '0' <= digits[i] <= '9'
    ensures ValidPrompt(prompt) ==>
      (Respond(prompt, encode) == Image(IMAGE_ENDPOINT + encode(EnhancedPrompt(prompt.s)) + SIZE_AND_SEED + digits))
    ensures ValidPrompt(prompt) ==> Js.DigitsValue(digits) == Seed(prompt.s)
  {
    if ValidPrompt(prompt) {
      digits := Js.NatToString(Seed(prompt.s));
      Js.DigitsRoundTrip(Seed(prompt.s));
    } else {
      digits := "";
    }
  }
}
