/**
 * The `custom_prompts` collection of lib/firestore-prompts.ts: one document
 * per user id holding that user's system prompt. Saving overwrites the
 * document, reading returns the prompt or nothing, deleting removes it.
 */
module Prompts {
  import opened Wrappers

  /** A stored prompt document; `updatedAt` is the save time in milliseconds. */
  datatype PromptDoc = PromptDoc(userId: string, prompt: string, updatedAt: int)

  /** What `getCustomPrompt(userId)` gives: the prompt or `null`, or a thrown error. */
  datatype PromptFetch = Fetched(prompt: Option<string>) | FetchFailed

  /** The collection after `saveCustomPrompt(userId, prompt)`. */
  function Saved(docs: map<string, PromptDoc>, userId: string, prompt: string, now: int): (r: map<string, PromptDoc>)
    ensures r.Keys == docs.Keys + {userId}
    ensures r[userId] == PromptDoc(userId, prompt, now)
    ensures forall k :: k in docs && k != userId ==> r[k] == docs[k]
  {
    docs[userId := PromptDoc(userId, prompt, now)]
  }

  /** The collection after `deleteCustomPrompt(userId)`. */
  function Removed(docs: map<string, PromptDoc>, userId: string): (r: map<string, PromptDoc>)
    ensures r.Keys == docs.Keys - {userId}
    ensures forall k :: k in r ==> r[k] == docs[k]
  {
    docs - {userId}
  }

  /** `getCustomPrompt(userId)` on a working store: the stored prompt, with an empty one read as `null`. */
  function Lookup(docs: map<string, PromptDoc>, userId: string): (r: Option<string>)
    ensures r.Some? ==> r.value != ""
  {
    if userId in docs && docs[userId].prompt != "" then Some(docs[userId].prompt) else None
  }

  /** A saved non-empty prompt reads back; a saved empty one reads back as `null`. */
  lemma ReadAfterSave(docs: map<string, PromptDoc>, userId: string, prompt: string, now: int)
    ensures prompt != "" ==> Lookup(Saved(docs, userId, prompt, now), userId) == Some(prompt)
    ensures prompt == "" ==> Lookup(Saved(docs, userId, prompt, now), userId).None?
  {
  }

  /** A user with no document, or whose document was deleted, has no prompt. */
  lemma ReadAfterDelete(docs: map<string, PromptDoc>, userId: string)
    ensures Lookup(Removed(docs, userId), userId).None?
    ensures userId !in docs ==> Lookup(docs, userId).None?
  {
  }

  /** Saving or deleting for one user leaves every other user's prompt as it was. */
  lemma OtherUsersUntouched(docs: map<string, PromptDoc>, userId: string, other: string, prompt: string, now: int)
    requires other != userId
    ensures Lookup(Saved(docs, userId, prompt, now), other) == Lookup(docs, other)
    ensures Lookup(Removed(docs, userId), other) == Lookup(docs, other)
  {
  }

  /** Saving again replaces the earlier prompt entirely. */
  lemma SaveReplaces(docs: map<string, PromptDoc>, userId: string, first: string, second: string, t1: int, t2: int)
    ensures Saved(Saved(docs, userId, first, t1), userId, second, t2) == Saved(docs, userId, second, t2)
  {
  }

  /** The collection, changed in place by the three operations. */
  class PromptStore {
    var docs: map<string, PromptDoc>

    constructor (initial: map<string, PromptDoc>)
      ensures docs == initial
    {
      docs := initial;
    }

    /** `saveCustomPrompt`; `ok` is false when the write throws, and then nothing changes. */
    method SaveCustomPrompt(userId: string, prompt: string, now: int, ok: bool) returns (saved: bool)
      modifies this
      ensures saved == ok
      ensures docs == if ok then Saved(old(docs), userId, prompt, now) else old(docs)
    {
      if !ok {
        return false;
      }
      docs := docs[userId := PromptDoc(userId, prompt, now)];
      return true;
    }

    /** `getCustomPrompt`; `ok` is false when the read throws. */
    method GetCustomPrompt(userId: string, ok: bool) returns (r: PromptFetch)
      ensures r == if ok then Fetched(Lookup(docs, userId)) else FetchFailed
    {
      if !ok {
        return FetchFailed;
      }
      if userId !in docs {
        return Fetched(None);
      }
      var prompt := docs[userId].prompt;
      return if prompt != "" then Fetched(Some(prompt)) else Fetched(None);
    }

    /** `deleteCustomPrompt`; deleting a missing document is not an error. */
    method DeleteCustomPrompt(userId: string, ok: bool) returns (deleted: bool)
      modifies this
      ensures deleted == ok
      ensures docs == if ok then Removed(old(docs), userId) else old(docs)
    {
      if !ok {
        return false;
      }
      docs := docs - {userId};
      return true;
    }
  }
}
