/**
 * useDraftMessages (src/hooks/useRealTimeFeatures.js:258-295): an unsent
 * message per chat, held in component state and mirrored to `localStorage`
 * under "chat_draft_<chatId>".
 */
module DraftMessages {
  import opened JsText

  /** `chat_draft_${chatId}` */
  function StorageKey(chatId: string): string {
    "chat_draft_" + chatId
  }

  /** The component's `drafts` object and the browser's `localStorage`, all of its keys. */
  datatype Drafts = Drafts(memory: map<string, string>, storage: map<string, string>)

  /** `clearDraft(chatId)`: drop the entry from both places. */
  function Cleared(d: Drafts, chatId: string): Drafts {
    Drafts(d.memory - {chatId}, d.storage - {StorageKey(chatId)})
  }

  /** `saveDraft(chatId, message)`: a message with non-whitespace is stored as given in both places; any other clears. */
  function Saved(d: Drafts, chatId: string, message: string): Drafts {
    if !IsBlank(message) then Drafts(d.memory[chatId := message], d.storage[StorageKey(chatId) := message])
    else Cleared(d, chatId)
  }

  /** `getDraft(chatId)`: the in-memory draft if non-empty, else the stored one if non-empty, else "". */
  function Draft(d: Drafts, chatId: string): string {
    if chatId in d.memory && d.memory[chatId] != "" then d.memory[chatId]
    else if StorageKey(chatId) in d.storage && d.storage[StorageKey(chatId)] != "" then d.storage[StorageKey(chatId)]
    else ""
  }

  class DraftStore {
    var drafts: map<string, string>
    /** The `localStorage` the store writes through to. */
    var storage: map<string, string>

    /** A fresh component over whatever `localStorage` already holds. */
    constructor (persisted: map<string, string>)
      ensures drafts == map[] && storage == persisted
    {
      drafts := map[];
      storage := persisted;
    }

    function State(): Drafts
      reads this
    {
      Drafts(drafts, storage)
    }

    method SaveDraft(chatId: string, message: string)
      modifies this
      ensures State() == Saved(old(State()), chatId, message)
    {
      if !IsBlank(message) {
        drafts := drafts[chatId := message];
        storage := storage[StorageKey(chatId) := message];
      } else {
        ClearDraft(chatId);
      }
    }

    function GetDraft(chatId: string): string
      reads this
    {
      Draft(State(), chatId)
    }

    method ClearDraft(chatId: string)
      modifies this
      ensures State() == Cleared(old(State()), chatId)
    {
      drafts := drafts - {chatId};
      storage := storage - {StorageKey(chatId)};
    }

    /** `hasDraft(chatId)`: `Boolean(getDraft(chatId))`. */
    predicate HasDraft(chatId: string)
      reads this
    {
      GetDraft(chatId) != ""
    }
  }

  /** Distinct chats use distinct storage keys. */
  lemma StorageKeyInjective(a: string, b: string)
    requires StorageKey(a) == StorageKey(b)
    ensures a == b
  {
    var prefix := "chat_draft_";
    assert a == StorageKey(a)[|prefix|..];
    assert b == StorageKey(b)[|prefix|..];
  }

  /** Saving then reading gives the message back untrimmed when it has non-whitespace, else "". */
  lemma SaveThenGet(d: Drafts, chatId: string, message: string)
    ensures Draft(Saved(d, chatId, message), chatId) == if IsBlank(message) then "" else message
  {
    if !IsBlank(message) {
      assert message != "";
    }
  }

  /** A draft exists after saving exactly when the message has non-whitespace. */
  lemma HasDraftAfterSave(d: Drafts, chatId: string, message: string)
    ensures Draft(Saved(d, chatId, message), chatId) != "" <==> !IsBlank(message)
  {
    SaveThenGet(d, chatId, message);
  }

  /** After clearing, nothing is found, neither in memory nor in storage. */
  lemma ClearThenGet(d: Drafts, chatId: string)
    ensures Draft(Cleared(d, chatId), chatId) == ""
    ensures chatId !in Cleared(d, chatId).memory && StorageKey(chatId) !in Cleared(d, chatId).storage
  {
  }

  /** Saving or clearing one chat's draft leaves every other chat's draft as it was. */
  lemma OtherChatsUnaffected(d: Drafts, chatId: string, other: string, message: string)
    requires other != chatId
    ensures Draft(Saved(d, chatId, message), other) == Draft(d, other)
    ensures Draft(Cleared(d, chatId), other) == Draft(d, other)
  {
    if StorageKey(other) == StorageKey(chatId) {
      StorageKeyInjective(other, chatId);
    }
  }

  /** A saved draft survives losing the component state: a fresh component reads it back from storage. */
  lemma DraftSurvivesReload(d: Drafts, chatId: string, message: string)
    requires !IsBlank(message)
    ensures Draft(Drafts(map[], Saved(d, chatId, message).storage), chatId) == message
  {
    assert message != "";
  }
}
