/** The markdown toolbar splice and the counters of components/BlogEditor.tsx. */
module BlogEditor {
  import opened Wrappers
  import opened Text
  import Js

  /** The editor's textarea: only its selection matters here. */
  class Textarea {
    var selectionStart: int
    var selectionEnd: int

    constructor (start: int, end: int)
      ensures selectionStart == start && selectionEnd == end
    {
      selectionStart := start;
      selectionEnd := end;
    }
  }

  /** The text `insertMarkdown` hands to `onContentChange`, with JavaScript `substring` semantics. */
  function Splice(content: string, start: int, end: int, before: string, after: string): string {
    Js.Substring(content, 0, start) + before + Js.Substring(content, start, end) + after
      + Js.Substring(content, end, |content|)
  }

  /**
   * `insertMarkdown(before, after)`: wraps the selection in `before`/`after`,
   * reports the new content and then selects the originally selected text
   * again. Without a textarea nothing happens.
   */
  method InsertMarkdown(textarea: Textarea?, content: string, before: string, after: string)
    returns (newContent: Option<string>)
    modifies textarea
    ensures textarea == null ==> newContent == None
    ensures textarea != null ==>
      var start, end := old(textarea.selectionStart), old(textarea.selectionEnd);
      && newContent == Some(Splice(content, start, end, before, after))
      && textarea.selectionStart == start + |before|
      && textarea.selectionEnd == start + |before| + |Js.Substring(content, start, end)|
  {
    if textarea == null {
      return None;
    }
    var start := textarea.selectionStart;
    var end := textarea.selectionEnd;
    var selectedText := Js.Substring(content, start, end);
    newContent := Some(Js.Substring(content, 0, start) + before + selectedText + after
      + Js.Substring(content, end, |content|));
    textarea.selectionStart := start + |before|;
    textarea.selectionEnd := start + |before| + |selectedText|;
  }

  /**
   * For a selection inside the content, the splice keeps the text before and
   * after the selection, grows by exactly the inserted markers, and the new
   * selection covers the originally selected text.
   */
  lemma SpliceShape(content: string, start: int, end: int, before: string, after: string)
    requires 0 <= start <= end <= |content|
    ensures var r := Splice(content, start, end, before, after);
      && r == content[..start] + before + content[start..end] + after + content[end..]
      && |r| == |content| + |before| + |after|
      && r[..start] == content[..start]
      && r[|r| - (|content| - end)..] == content[end..]
      && r[start + |before|..start + |before| + (end - start)] == content[start..end]
  {
    assert Js.Substring(content, 0, start) == content[..start];
    assert Js.Substring(content, start, end) == content[start..end];
    assert Js.Substring(content, end, |content|) == content[end..];
    assert content == content[..start] + content[start..end] + content[end..];
    Pieces(content[..start], before, content[start..end], after, content[end..]);
  }

  /** Where each of five concatenated pieces sits in the result. */
  lemma Pieces(p: string, b: string, m: string, a: string, q: string)
    ensures var r := p + b + m + a + q;
      && |r| == |p| + |b| + |m| + |a| + |q|
      && r[..|p|] == p
      && r[|r| - |q|..] == q
      && r[|p| + |b|..|p| + |b| + |m|] == m
  {
    var r := p + b + m + a + q;
    assert r == p + (b + m + a + q);
    assert r == (p + b) + m + (a + q);
    assert r == (p + b + m + a) + q;
  }

  /** The editor's word and character counters. */
  datatype Stats = Stats(words: nat, chars: nat)

  /** `content.trim().split(/\s+/).length` and `content.length`. */
  function EditorStats(content: string): (r: Stats)
    ensures r.words >= 1 && r.chars == |content|
    ensures r.words == if Trim(content) == [] then 1 else Words(Trim(content))
  {
    TokenCountIsWords(content);
    Stats(TokenCount(content), |content|)
  }
}
