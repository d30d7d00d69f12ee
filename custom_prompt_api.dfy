/**
 * The routes of app/api/custom-prompt/route.ts: `GET` reads a user's
 * prompt, `POST` saves one, `DELETE` removes it. Each first insists on a
 * user id; store failures become status 500.
 */
module CustomPromptApi {
  import opened Wrappers
  import opened Text
  import Js
  import Prompts

  const USER_REQUIRED: string := "userId is required"
  const PROMPT_EMPTY: string := "prompt cannot be empty"
  const FETCH_FAILED: string := "Failed to fetch custom prompt"
  const SAVE_FAILED: string := "Failed to save custom prompt"
  const DELETE_FAILED: string := "Failed to delete custom prompt"

  /** The JSON bodies the routes answer with. */
  datatype PromptResponse =
    | PromptBody(prompt: Option<string>)
    | SavedBody(saved: string)
    | DeletedBody
    | ErrorBody(status: int, error: string)

  datatype Outcome = Outcome(response: PromptResponse, docs: map<string, Prompts.PromptDoc>)

  /** The HTTP status of a response. */
  function Status(r: PromptResponse): int {
    if r.ErrorBody? then r.status else 200
  }

  /** The `userId` parameter or body field is missing or empty. */
  predicate NoUser(userId: Option<string>) {
    userId.None? || userId.value == ""
  }

  /** `GET ?userId=…`; `ok` is false when the read throws. */
  function Get(docs: map<string, Prompts.PromptDoc>, userId: Option<string>, ok: bool): PromptResponse {
    if NoUser(userId) then ErrorBody(400, USER_REQUIRED)
    else if !ok then ErrorBody(500, FETCH_FAILED)
    else PromptBody(Prompts.Lookup(docs, userId.value))
  }

  /** `POST {userId, prompt}`: the prompt must be a string with some non-whitespace text; it is stored as given. */
  function Post(docs: map<string, Prompts.PromptDoc>, userId: Option<string>, prompt: Js.Json, now: int, ok: bool): Outcome {
    if NoUser(userId) then Outcome(ErrorBody(400, USER_REQUIRED), docs)
    else if !prompt.JString? || Trim(prompt.s) == "" then Outcome(ErrorBody(400, PROMPT_EMPTY), docs)
    else if !ok then Outcome(ErrorBody(500, SAVE_FAILED), docs)
    else Outcome(SavedBody(prompt.s), Prompts.Saved(docs, userId.value, prompt.s, now))
  }

  /** `DELETE ?userId=…`. */
  function Delete(docs: map<string, Prompts.PromptDoc>, userId: Option<string>, ok: bool): Outcome {
    if NoUser(userId) then Outcome(ErrorBody(400, USER_REQUIRED), docs)
    else if !ok then Outcome(ErrorBody(500, DELETE_FAILED), docs)
    else Outcome(DeletedBody, Prompts.Removed(docs, userId.value))
  }

  /** Every handler refuses a missing user id with 400 and touches nothing, whatever else the request holds. */
  lemma UserIdIsCheckedFirst(docs: map<string, Prompts.PromptDoc>, userId: Option<string>, prompt: Js.Json, now: int, ok: bool)
    requires NoUser(userId)
    ensures Get(docs, userId, ok) == ErrorBody(400, USER_REQUIRED)
    ensures Post(docs, userId, prompt, now, ok) == Outcome(ErrorBody(400, USER_REQUIRED), docs)
    ensures Delete(docs, userId, ok) == Outcome(ErrorBody(400, USER_REQUIRED), docs)
  {
  }

  /** With a user id, a non-string or blank prompt is refused with 400 before the store is tried. */
  lemma BlankPromptIsRefused(docs: map<string, Prompts.PromptDoc>, userId: string, prompt: Js.Json, now: int, ok: bool)
    requires userId != ""
    requires !prompt.JString? || AllSpace(prompt.s)
    ensures Post(docs, Some(userId), prompt, now, ok) == Outcome(ErrorBody(400, PROMPT_EMPTY), docs)
  {
    if prompt.JString? {
      TrimEmptyIffBlank(prompt.s);
    }
  }

  /** A saved prompt is echoed, and a later `GET` for that user returns it. */
  lemma PostThenGet(docs: map<string, Prompts.PromptDoc>, userId: string, prompt: string, now: int)
    requires userId != "" && Trim(prompt) != ""
    ensures var o := Post(docs, Some(userId), Js.JString(prompt), now, true);
      && o.response == SavedBody(prompt)
      && Get(o.docs, Some(userId), true) == PromptBody(Some(prompt))
  {
    assert |Trim(prompt)| <= |prompt|;
    var saved := Prompts.Saved(docs, userId, prompt, now);
    assert Post(docs, Some(userId), Js.JString(prompt), now, true) == Outcome(SavedBody(prompt), saved);
    Prompts.ReadAfterSave(docs, userId, prompt, now);
  }

  /** After a `DELETE`, a `GET` for that user returns `null`; other users keep their prompts. */
  lemma DeleteThenGet(docs: map<string, Prompts.PromptDoc>, userId: string, other: string)
    requires userId != "" && other != "" && other != userId
    ensures Get(Delete(docs, Some(userId), true).docs, Some(userId), true) == PromptBody(None)
    ensures Get(Delete(docs, Some(userId), true).docs, Some(other), true) == Get(docs, Some(other), true)
  {
  }

  /** A failing store gives 500 and changes nothing. */
  lemma StoreFailuresAre500(docs: map<string, Prompts.PromptDoc>, userId: string, prompt: Js.Json, now: int)
    requires userId != ""
    ensures Status(Get(docs, Some(userId), false)) == 500
    ensures Status(Delete(docs, Some(userId), false).response) == 500
    ensures Delete(docs, Some(userId), false).docs == docs
    ensures Post(docs, Some(userId), prompt, now, false).docs == docs
    ensures Status(Post(docs, Some(userId), prompt, now, false).response) in {400, 500}
  {
  }

  /** `GET` against the store object. */
  method HandleGet(store: Prompts.PromptStore, userId: Option<string>, ok: bool) returns (r: PromptResponse)
    ensures r == Get(store.docs, userId, ok)
  {
    if userId.None? || userId.value == "" {
      return ErrorBody(400, USER_REQUIRED);
    }
    var fetched := store.GetCustomPrompt(userId.value, ok);
    if fetched.FetchFailed? {
      return ErrorBody(500, FETCH_FAILED);
    }
    return PromptBody(fetched.prompt);
  }

  /** `POST` against the store object. */
  method HandlePost(store: Prompts.PromptStore, userId: Option<string>, prompt: Js.Json, now: int, ok: bool)
    returns (r: PromptResponse)
    modifies store
    ensures Outcome(r, store.docs) == Post(old(store.docs), userId, prompt, now, ok)
  {
    if userId.None? || userId.value == "" {
      return ErrorBody(400, USER_REQUIRED);
    }
    if !prompt.JString? || Trim(prompt.s) == "" {
      return ErrorBody(400, PROMPT_EMPTY);
    }
    var saved := store.SaveCustomPrompt(userId.value, prompt.s, now, ok);
    if !saved {
      return ErrorBody(500, SAVE_FAILED);
    }
    return SavedBody(prompt.s);
  }

  /** `DELETE` against the store object. */
  method HandleDelete(store: Prompts.PromptStore, userId: Option<string>, ok: bool) returns (r: PromptResponse)
    modifies store
    ensures Outcome(r, store.docs) == Delete(old(store.docs), userId, ok)
  {
    if userId.None? || userId.value == "" {
      return ErrorBody(400, USER_REQUIRED);
    }
    var deleted := store.DeleteCustomPrompt(userId.value, ok);
    if !deleted {
      return ErrorBody(500, DELETE_FAILED);
    }
    return DeletedBody;
  }
}
