/**
 * `ConversationManager`: the conversations directory (one JSON file per
 * conversation, named by its id) and the in-memory list of the conversations
 * loaded from it. The directory is a map from file stem to record; the list
 * is a sequence the methods reassign; `clock` is the last instant the
 * program read (here, or for a message timestamp in the window) and only
 * moves forward.
 */
module Store {
  import opened Wrappers
  import opened Text
  import opened Clock
  import opened Records

  class ConversationManager {
    var conversationsDir: Directory
    var conversations: seq<Record>
    var clock: Instant

    /** `__init__`: open the directory and load every conversation in it, newest first. */
    constructor (files: Directory, listing: seq<string>, now: Instant)
      requires forall k :: k in listing ==> k in files
      ensures conversationsDir == files && clock == now
      ensures conversations == SortNewestFirst(ParsedInOrder(files, listing))
    {
      conversationsDir := files;
      conversations := [];
      clock := now;
      new;
      conversations := LoadConversations(listing);
    }

    /**
     * `load_conversations`: read the files in `listing` (the order the
     * directory is enumerated in) and skip those that do not parse; return
     * the rest sorted by `updated_at`, newest first.
     */
    method LoadConversations(listing: seq<string>) returns (loaded: seq<Record>)
      requires forall k :: k in listing ==> k in conversationsDir
      ensures loaded == SortNewestFirst(ParsedInOrder(conversationsDir, listing))
      ensures NewestFirst(loaded)
      ensures multiset(loaded) == multiset(ParsedInOrder(conversationsDir, listing))
    {
      var parsed: seq<Record> := [];
      for i := 0 to |listing|
        invariant parsed == ParsedInOrder(conversationsDir, listing[..i])
      {
        assert listing[..i + 1][..i] == listing[..i];
        match conversationsDir[listing[i]] {
          case Some(conv) =>
            parsed := parsed + [conv];
          case None =>
            // the file does not parse: it is reported and skipped
        }
      }
      assert listing[..|listing|] == listing;
      loaded := SortNewestFirst(parsed);
    }

    /**
     * `save_conversation`: refresh `updated_at` and write the record under its
     * `id`, or under the current second when it has none (without adding an
     * `id`). No other file changes and the in-memory list is untouched.
     */
    method SaveConversation(conversation: Record, now: Instant) returns (saved: Record)
      requires clock <= now
      modifies this
      ensures saved == Stamped(conversation, now)
      ensures saved.id == conversation.id
      ensures conversationsDir == old(conversationsDir)[StorageKey(conversation, now) := Some(saved)]
      ensures conversations == old(conversations) && clock == now
    {
      clock := now;
      var convId := StorageKey(conversation, now);
      saved := Stamped(conversation, now);
      conversationsDir := conversationsDir[convId := Some(saved)];
    }

    /**
     * `delete_conversation`: when the file exists, remove it and drop every
     * in-memory record with that id, the others keeping their order; when it
     * does not, change nothing and raise nothing.
     */
    method DeleteConversation(convId: string)
      modifies this
      ensures convId in old(conversationsDir) ==>
        conversationsDir == old(conversationsDir) - {convId}
        && conversations == WithoutId(old(conversations), convId)
      ensures convId !in old(conversationsDir) ==>
        conversationsDir == old(conversationsDir) && conversations == old(conversations)
      ensures clock == old(clock)
    {
      if convId in conversationsDir {
        conversationsDir := conversationsDir - {convId};
        conversations := WithoutId(conversations, convId);
      }
    }

    /**
     * `create_new_conversation`: build a record with an id taken from the
     * current second, the title, no messages and both timestamps, and save it.
     * Within one second the id, hence the file, is the same as the previous
     * conversation's. The in-memory list is not changed.
     */
    method CreateNewConversation(title: string, created: Instant, saved: Instant) returns (conversation: Record)
      requires clock <= created <= saved
      modifies this
      ensures conversation == Stamped(NewConversation(title, created), saved)
      ensures conversationsDir == old(conversationsDir)[SecondStamp(created) := Some(conversation)]
      ensures conversations == old(conversations) && clock == saved
    {
      clock := created;
      var draft := NewConversation(title, created);
      conversation := SaveConversation(draft, saved);
    }

    /**
     * `search_conversations`: the conversations, in list order, whose title
     * contains the query ignoring case or, failing that, one of whose
     * messages does.
     */
    method SearchConversations(query: string) returns (results: seq<Record>)
      ensures results == SearchResults(conversations, query)
    {
      results := [];
      var queryLower := Lower(query);
      var i := 0;
      while i < |conversations|
        invariant 0 <= i <= |conversations|
        invariant results == SearchResults(conversations[..i], query)
      {
        var conv := conversations[i];
        assert conversations[..i + 1] == conversations[..i] + [conv];
        SearchResultsSnoc(conversations[..i], conv, query);
        if IsSubstring(queryLower, Lower(conv.title.GetOr(""))) {
          assert TitleMatches(conv, queryLower);
          results := results + [conv];
          i := i + 1;
          continue;
        }
        var msgs := conv.messages.GetOr([]);
        ghost var before := results;
        ghost var matched := false;
        var j := 0;
        while j < |msgs|
          invariant 0 <= j <= |msgs|
          invariant results == before && !matched
          invariant forall k :: 0 <= k < j ==> !MessageMatches(msgs[k], queryLower)
        {
          if IsSubstring(queryLower, Lower(msgs[j].content.GetOr(""))) {
            assert MessageMatches(msgs[j], queryLower) && msgs[j] in msgs;
            results := results + [conv];
            matched := true;
            break;
          }
          j := j + 1;
        }
        if !matched {
          forall m | m in msgs ensures !MessageMatches(m, queryLower) {
            var k :| 0 <= k < |msgs| && msgs[k] == m;
          }
          assert !Matches(conv, query);
        }
        i := i + 1;
      }
      assert conversations[..i] == conversations;
    }
  }
}
