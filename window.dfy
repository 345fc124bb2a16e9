/**
 * The main window's operations on the conversation store: new chat, rename,
 * send (local view), clear, and the search dialog. The window's current
 * conversation, and the conversation a list item stands for, are positions
 * in the manager's in-memory list: the window edits that list's records in
 * place.
 */
module Window {
  import opened Wrappers
  import opened Text
  import opened Clock
  import opened Records
  import opened Store

  /** What `send_message` did. */
  datatype SendOutcome =
    | Ignored                // the input is empty after stripping
    | Appended               // one user message was appended to the current conversation
    | NoCurrentConversation  // no conversation and the title dialog was cancelled: `None['messages']` raises TypeError
    | MessagesMissing        // the current conversation has no `messages` key: KeyError

  /** `if self.current_conversation:` there is one and it is not `{}`. */
  predicate HasCurrent(current: Option<nat>, cs: seq<Record>) {
    current.Some? && current.value < |cs| && !IsEmptyDict(cs[current.value])
  }

  /** The conversation after the append, and after the auto-save when it is on. */
  function AfterSend(r: Record, content: string, autoSave: bool, now: Instant): Record
    requires r.messages.Some?
  {
    var appended := WithUserMessage(r, content, now);
    if autoSave then Stamped(appended, now) else appended
  }

  /** The directory after the auto-save of the appended conversation, when it is on. */
  function DirAfterSend(d: Directory, r: Record, content: string, autoSave: bool, now: Instant): Directory
    requires r.messages.Some?
  {
    var appended := WithUserMessage(r, content, now);
    if autoSave then d[StorageKey(appended, now) := Some(Stamped(appended, now))] else d
  }

  class ChatWindow {
    const manager: ConversationManager
    var current: Option<nat>

    ghost predicate Valid()
      reads this, manager
    {
      current.Some? ==> current.value < |manager.conversations|
    }

    /** On start the most recent conversation, if any, becomes the current one. */
    constructor (m: ConversationManager)
      ensures manager == m && Valid()
      ensures current == if m.conversations == [] then None else Some(0)
    {
      manager := m;
      current := if m.conversations == [] then None else Some(0);
    }

    /**
     * `new_chat`: with a non-empty title from the dialog, create and save a
     * conversation, put it at the front of the list, and make it current; a
     * cancelled dialog or an empty title changes nothing.
     */
    method NewChat(title: string, ok: bool, created: Instant, saved: Instant)
      requires Valid() && manager.clock <= created <= saved
      modifies this, manager
      ensures Valid()
      ensures ok && title != "" ==>
        && manager.conversations == [Stamped(NewConversation(title, created), saved)] + old(manager.conversations)
        && manager.conversationsDir == old(manager.conversationsDir)[SecondStamp(created) := Some(manager.conversations[0])]
        && current == Some(0) && manager.clock == saved
      ensures !(ok && title != "") ==>
        && manager.conversations == old(manager.conversations)
        && manager.conversationsDir == old(manager.conversationsDir)
        && current == old(current) && manager.clock == old(manager.clock)
    {
      if ok && title != "" {
        var conv := manager.CreateNewConversation(title, created, saved);
        manager.conversations := [conv] + manager.conversations;
        current := Some(0);
      }
    }

    /**
     * `rename_conversation` on the conversation at position `i`: with a
     * non-empty title from the dialog, set the title and save, which also
     * refreshes `updated_at`; otherwise change nothing.
     */
    method RenameConversation(i: nat, newTitle: string, ok: bool, now: Instant)
      requires Valid() && i < |manager.conversations| && manager.clock <= now
      modifies manager
      ensures Valid()
      ensures ok && newTitle != "" ==>
        var renamed := Stamped(old(manager.conversations[i]).(title := Some(newTitle)), now);
        && manager.conversations == old(manager.conversations)[i := renamed]
        && manager.conversationsDir == old(manager.conversationsDir)[StorageKey(old(manager.conversations[i]), now) := Some(renamed)]
        && manager.clock == now
      ensures !(ok && newTitle != "") ==>
        && manager.conversations == old(manager.conversations)
        && manager.conversationsDir == old(manager.conversationsDir)
        && manager.clock == old(manager.clock)
    {
      if ok && newTitle != "" {
        var conv := manager.conversations[i].(title := Some(newTitle));
        var saved := manager.SaveConversation(conv, now);
        manager.conversations := manager.conversations[i := saved];
      }
    }

    /**
     * `clear_chat`: once confirmed, empty the current conversation's
     * messages, leaving its other fields; nothing is saved.
     */
    method ClearChat(confirmed: bool)
      requires Valid()
      modifies manager`conversations
      ensures Valid()
      ensures confirmed && HasCurrent(current, old(manager.conversations)) ==>
        manager.conversations
          == old(manager.conversations)[current.value := old(manager.conversations[current.value]).(messages := Some([]))]
      ensures !(confirmed && HasCurrent(current, old(manager.conversations))) ==>
        manager.conversations == old(manager.conversations)
    {
      if confirmed && HasCurrent(current, manager.conversations) {
        var i := current.value;
        manager.conversations := manager.conversations[i := manager.conversations[i].(messages := Some([]))];
      }
    }

    /**
     * The second half of `send_message`: append one user message at the end
     * of the current conversation's messages, then save it when auto-save is
     * on. The subscript fails without a current conversation (`None`) or
     * when the conversation has no `messages` key.
     */
    method AppendToCurrent(message: string, autoSave: bool, now: Instant) returns (outcome: SendOutcome)
      requires Valid() && manager.clock <= now
      modifies manager
      ensures Valid()
      ensures current.None? ==> outcome == NoCurrentConversation
      ensures current.Some? && old(manager.conversations[current.value]).messages.None? ==> outcome == MessagesMissing
      ensures outcome != Appended ==>
        && manager.conversations == old(manager.conversations)
        && manager.conversationsDir == old(manager.conversationsDir)
      ensures manager.clock == if outcome == Appended then now else old(manager.clock)
      ensures current.Some? && old(manager.conversations[current.value]).messages.Some? ==>
        var target := old(manager.conversations[current.value]);
        && outcome == Appended
        && manager.conversations == old(manager.conversations)[current.value := AfterSend(target, message, autoSave, now)]
        && manager.conversationsDir == DirAfterSend(old(manager.conversationsDir), target, message, autoSave, now)
    {
      if current.None? {
        return NoCurrentConversation;
      }
      var i := current.value;
      var conv := manager.conversations[i];
      if conv.messages.None? {
        return MessagesMissing;
      }
      // the message timestamp reads the clock
      manager.clock := now;
      conv := WithUserMessage(conv, message, now);
      manager.conversations := manager.conversations[i := conv];
      outcome := Appended;
      if autoSave {
        // save_current_chat: the conversation now has messages, so it is saved
        var stamped := manager.SaveConversation(conv, now);
        manager.conversations := manager.conversations[i := stamped];
      }
    }

    /**
     * `send_message` without a current conversation: `new_chat` first, then
     * the append, which lands on the new conversation at the front. When the
     * dialog is cancelled the append's subscript raises and nothing changes.
     */
    method NewChatThenAppend(message: string, dialogOk: bool, dialogTitle: string, autoSave: bool,
                             created: Instant, saved: Instant, now: Instant)
      returns (outcome: SendOutcome)
      requires Valid() && manager.clock <= created <= saved <= now
      requires !HasCurrent(current, manager.conversations)
      modifies this, manager
      ensures Valid()
      ensures !(dialogOk && dialogTitle != "") ==>
        && outcome == (if old(current).None? then NoCurrentConversation else MessagesMissing)
        && manager.conversations == old(manager.conversations)
        && manager.conversationsDir == old(manager.conversationsDir)
        && current == old(current) && manager.clock == old(manager.clock)
      ensures dialogOk && dialogTitle != "" ==>
        var newConv := Stamped(NewConversation(dialogTitle, created), saved);
        && outcome == Appended && current == Some(0)
        && manager.conversations == [AfterSend(newConv, message, autoSave, now)] + old(manager.conversations)
        && manager.conversationsDir
           == DirAfterSend(old(manager.conversationsDir)[SecondStamp(created) := Some(newConv)], newConv, message, autoSave, now)
        && manager.clock == now
    {
      NewChat(dialogTitle, dialogOk, created, saved);
      ghost var listed := manager.conversations;
      outcome := AppendToCurrent(message, autoSave, now);
      if dialogOk && dialogTitle != "" {
        ghost var sent := AfterSend(listed[0], message, autoSave, now);
        assert listed[0 := sent] == [sent] + listed[1..];
      }
    }

    /**
     * `send_message` (local view): ignore input that is empty after
     * stripping; without a current conversation ask for a new chat first;
     * then append the stripped input as a user message.
     */
    method SendMessage(input: string, dialogOk: bool, dialogTitle: string, autoSave: bool,
                       created: Instant, saved: Instant, now: Instant)
      returns (outcome: SendOutcome)
      requires Valid() && manager.clock <= created <= saved <= now
      modifies this, manager
      ensures Valid()
      ensures outcome == Ignored <==> Strip(input) == ""
      ensures outcome != Appended ==>
        && manager.conversations == old(manager.conversations)
        && manager.conversationsDir == old(manager.conversationsDir)
        && current == old(current)
      // the clock: the message timestamp reads it last; without an append it stays
      ensures manager.clock == if outcome == Appended then now else old(manager.clock)
      // a current conversation: the message goes to it
      ensures Strip(input) != "" && HasCurrent(old(current), old(manager.conversations)) ==>
        var i := old(current).value;
        var target := old(manager.conversations[i]);
        && current == old(current)
        && (target.messages.None? ==> outcome == MessagesMissing)
        && (target.messages.Some? ==>
              && outcome == Appended
              && manager.conversations == old(manager.conversations)[i := AfterSend(target, Strip(input), autoSave, now)]
              && manager.conversationsDir == DirAfterSend(old(manager.conversationsDir), target, Strip(input), autoSave, now))
      // no current conversation and a cancelled dialog: the subscript raises
      ensures Strip(input) != "" && !HasCurrent(old(current), old(manager.conversations)) && !(dialogOk && dialogTitle != "") ==>
        outcome == (if old(current).None? then NoCurrentConversation else MessagesMissing)
      // no current conversation and a new chat: the message goes to the new conversation at the front
      ensures Strip(input) != "" && !HasCurrent(old(current), old(manager.conversations)) && dialogOk && dialogTitle != "" ==>
        var newConv := Stamped(NewConversation(dialogTitle, created), saved);
        && outcome == Appended && current == Some(0)
        && manager.conversations == [AfterSend(newConv, Strip(input), autoSave, now)] + old(manager.conversations)
        && manager.conversationsDir
           == DirAfterSend(old(manager.conversationsDir)[SecondStamp(created) := Some(newConv)], newConv, Strip(input), autoSave, now)
    {
      var message := Strip(input);
      if message == "" {
        return Ignored;
      }
      if HasCurrent(current, manager.conversations) {
        outcome := AppendToCurrent(message, autoSave, now);
      } else {
        outcome := NewChatThenAppend(message, dialogOk, dialogTitle, autoSave, created, saved, now);
      }
    }
  }

  /** The status line of the search dialog. */
  datatype SearchStatus = EnterSearchTerms | Found(count: nat)

  /** `SearchDialog`: the results list and status line are the state `perform_search` updates. */
  class SearchDialog {
    const manager: ConversationManager
    var results: seq<Record>
    var status: SearchStatus

    constructor (m: ConversationManager)
      ensures manager == m && results == [] && status == EnterSearchTerms
    {
      manager := m;
      results := [];
      status := EnterSearchTerms;
    }

    /**
     * `perform_search`: strip the query; a blank query clears the results and
     * asks for search terms without searching; any other query shows the
     * manager's search results and their number.
     */
    method PerformSearch(text: string)
      modifies this
      ensures Strip(text) == "" ==> results == [] && status == EnterSearchTerms
      ensures Strip(text) != "" ==>
        results == SearchResults(manager.conversations, Strip(text)) && status == Found(|results|)
    {
      var query := Strip(text);
      if query == "" {
        results := [];
        status := EnterSearchTerms;
        return;
      }
      var found := manager.SearchConversations(query);
      results := found;
      status := Found(|found|);
    }
  }
}
