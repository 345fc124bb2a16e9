# Claude Desktop for Linux: navigation decision, conversation store, text export

This project models, in Dafny, the parts of the Linux desktop shell for
claude.ai that are logic rather than Qt widgets, and proves what they do.
There are three parts.

- **Navigation decision** (`ClaudeWebPage.acceptNavigationRequest`). For
  every navigation of the embedded web view, the page decides whether the
  view loads the URL itself or hands it to the system browser. The trust
  test checks whether `claude.ai` or `anthropic.com` occurs *anywhere* in
  the URL's host. The model keeps that test exactly as written, so
  `claude.ai.evil.com` is trusted (see Findings).
- **Conversation store** (`ConversationManager`, plus the window operations
  that change it). The conversations directory is a map from file stem to
  record; a file that does not parse is `None`. The in-memory list is a
  sequence the methods reassign. The clock is an instant that only moves
  forward. `updated_at` strings are compared the way Python compares
  strings. Ids come from the current second, so two conversations created
  within one second share an id and a file.
- **Plain-text export**. The file starts with a `# title` header. Each
  message then becomes one `**You**: ` or `**Claude**: ` paragraph, in
  message order. A message without `role` or `content` stops the export
  half-way.

Files (each is one module):

- `wrappers.dfy`: `Option`.
- `text.dfy`: substring search, ASCII lower-casing, `str.strip()` and
  lexicographic string order.
- `clock.dfy`: instants and the timestamp strings made from them.
- `navigation.dfy`: the navigation decision.
- `records.dfy`: records, filtering, the search predicate, the newest-first
  order, and directory loading.
- `store.dfy`: the `ConversationManager` class.
- `window.dfy`: the main window's operations and the search dialog.
- `export.dfy`: the text export.

Source notes:

- The store exists twice in the source: `claude_desktop.py:41-91` and
  `claude_desktop_enhanced.py:99-165`. Apart from
  `search_conversations`, which only the enhanced copy has, the two copies
  are the same code. The model has one class.
- `acceptNavigationRequest` tests substring containment on `url.host()`
  (`claude_desktop_enhanced.py:35`). The code tracks no popups and has no
  URL classifier. The model takes the host alone as input, so a domain name
  in a URL's path or query never reaches the test.

Clock model:

- An instant is a natural number below 10^20 (microseconds).
- `Iso(t)` stands for `isoformat()`. It is a fixed-width decimal (see "Left out"), so string
  order and time order agree (`Clock.IsoOrder`).
- `SecondStamp(t)` stands for the whole-second formats: `%Y%m%d_%H%M%S`,
  used for ids, and `%Y-%m-%d %H:%M:%S`, used for message timestamps.
- Each clock reading that matters is a parameter of the operation. The
  manager's `clock` field must not be later than it.

## Model

| member | source | states |
|---|---|---|
| Navigation.AcceptNavigationRequest | claude_desktop_enhanced.py:31-43 | the decision either loads in place or hands off, never both; it hands off exactly on a link click to a host containing neither allowed domain |
| Navigation.HostContainsAllowedDomain | claude_desktop_enhanced.py:34-35 | `any(domain in url.host() for domain in allowed_domains)` over the two allowed domains (definition) |
| Navigation.TrustedHostLoadsInPlace | claude_desktop_enhanced.py:31-36 | a host in which "claude.ai" or "anthropic.com" occurs as a substring is loaded in place and not handed off, for every navigation kind |
| Navigation.UntrustedLinkClickHandedOff | claude_desktop_enhanced.py:38-41 | a link click to a host containing neither domain is refused and handed to the system browser |
| Navigation.UntrustedNonClickLoadsInPlace | claude_desktop_enhanced.py:31-43 | any navigation other than a link click is accepted in place whatever the host |
| Navigation.MainFrameIgnored | claude_desktop_enhanced.py:31-43 | the decision does not depend on `is_main_frame`; a URL is never both loaded and handed off |
| Navigation.LookalikeHostTrusted | claude_desktop_enhanced.py:34-36 | as written, link clicks to `claude.ai.evil.com` and `notanthropic.com` are loaded in place |
| Navigation.HostInDomainContainsDomain | claude_desktop_enhanced.py:34-35 | a host equal to a domain or ending in "." + domain contains that domain as a substring |
| Navigation.AcceptNavigationRequestByDomain | claude_desktop_enhanced.py:31-43 | the same decision table with the domain-or-subdomain test in place of substring containment (definition; the corrected half of the finding) |
| Navigation.DomainTestNarrowsSubstringTest | claude_desktop_enhanced.py:34-43 | the domain-or-subdomain test implies the substring test; the two decisions differ exactly on link clicks to hosts the substring test trusts and the domain test does not |
| Navigation.DomainTestRejectsLookalike | claude_desktop_enhanced.py:34-41 | with the domain-or-subdomain test, `accounts.claude.ai` still loads in place and `claude.ai.evil.com` is handed off |
| Text.SubstringIffOccurs | claude_desktop_enhanced.py:35 | Python's `in` on strings: the needle occurs at some index of the haystack |
| Text.IsSubstring | claude_desktop_enhanced.py:35 | Python's `needle in haystack` on strings, by a scan of the haystack (definition; characterized by `Text.SubstringIffOccurs`) |
| Text.Lower | claude_desktop_enhanced.py:154-162 | `str.lower()`, restricted to ASCII letters (definition) |
| Text.Strip | claude_desktop_enhanced.py:362 | `strip()` returns a contiguous window of the input; everything outside it is whitespace; it neither starts nor ends with whitespace; it is empty iff the input is all whitespace |
| Text.StrLeTotal | claude_desktop.py:61 | the string order `sorted` uses on `updated_at` is total |
| Text.StrLeTransitive | claude_desktop.py:61 | the string order is transitive |
| Text.StrLeAntisymmetric | claude_desktop.py:61 | the string order is antisymmetric |
| Clock.IsoOrder | claude_desktop.py:67 | `isoformat` stamps compare as strings exactly as their instants compare |
| Clock.SecondStampCollision | claude_desktop.py:83 | two second stamps are equal iff both instants fall in the same second |
| Records.StorageKey | claude_desktop.py:65-66 | the file a save writes: the record's `id`, or the current second when it has none (definition) |
| Records.UpdatedKey | claude_desktop.py:61 | the sort key `x.get('updated_at', '')` (definition) |
| Records.Stamped | claude_desktop.py:67 | the record after `conversation['updated_at'] = now`, every other field kept (definition) |
| Records.NewConversation | claude_desktop.py:83-90 | the dictionary built before the save: second-stamp id, the title, empty `messages`, both timestamps at the creation instant (definition) |
| Records.UserMessage | claude_desktop.py:532-537 | the appended message: role `user`, the stripped text, the current second as timestamp (definition) |
| Records.WithUserMessage | claude_desktop.py:533-537 | the record with the user message appended at the end of `messages`, every other field kept (definition) |
| Records.SaveRefreshesUpdatedAt | claude_desktop.py:67 | a save never moves `updated_at` back in string order and changes no other field |
| Records.CreatedNotAfterUpdated | claude_desktop.py:81-91 | a created conversation has the title, no messages, the creation second as storage key, and `created_at <= updated_at` |
| Records.IdsCollideWithinOneSecond | claude_desktop_enhanced.py:141 | two created conversations get the same id iff they are created in the same second, whatever their titles |
| Records.Filter | claude_desktop.py:79 | a list comprehension keeps the elements meeting the condition and no other, as a subsequence of the input |
| Records.FilterCount | claude_desktop.py:79 | an element meeting the condition is kept as many times as the input holds it; the others not at all |
| Records.FilterIdempotent | claude_desktop.py:79 | filtering twice with one condition equals filtering once |
| Records.WithoutId | claude_desktop.py:79 | `[c for c in conversations if c.get('id') != conv_id]` (definition) |
| Records.WithoutIdKeepsOthers | claude_desktop.py:79 | removing an id keeps exactly the records whose id differs or is absent, each as many times as the list holds it, in their order; removing it again changes nothing |
| Records.Matches | claude_desktop_enhanced.py:154-164 | the lower-cased query occurs in the lower-cased title or in the lower-cased content of some message, missing values as "" (definition) |
| Records.SearchResults | claude_desktop_enhanced.py:151-165 | the matching records in list order (definition; the loop and the lemmas below are proved against it) |
| Records.SearchResultsSnoc | claude_desktop_enhanced.py:153-165 | one more record in the list adds it at the end of the results iff it matches |
| Records.SearchResultsCharacterized | claude_desktop_enhanced.py:154-164 | a record is found iff it is in the list and the lower-cased query occurs in its lower-cased title or in some message's content (missing as ""); the results are a subsequence of the list, holding each match as often as the list does |
| Records.EmptyQueryMatchesEverything | claude_desktop_enhanced.py:151-165 | without the dialog's guard, the empty query would return every conversation |
| Records.InsertNewestFirst | claude_desktop.py:61 | inserting into a newest-first list keeps it newest first and adds exactly one element |
| Records.SortNewestFirst | claude_desktop.py:61 | the sort by `updated_at` (missing as ""), descending, is newest first and a permutation of its input |
| Records.ParsedInOrder | claude_desktop.py:53-60 | the records of the listed files in listing order, skipping the files that do not parse (definition; `LoadConversations` is proved equal to its sort) |
| Records.ParsedMembers | claude_desktop.py:53-60 | the parsed records of a listing are exactly those of listed files that parse |
| Records.LoadedIffParsable | claude_desktop.py:51-61 | loading yields, newest first, exactly the records of the directory's files that parse; unparseable files are skipped |
| Records.SavedRecordIsLoaded | claude_desktop.py:63-72 | after a save, loading the directory lists the saved record |
| Store.ConversationManager.constructor | claude_desktop.py:44-49 | the manager starts with the given directory and the loaded conversations |
| Store.ConversationManager.LoadConversations | claude_desktop.py:51-61 | the loop collects the parsed records in listing order; the result is their newest-first sort, a permutation of them |
| Store.ConversationManager.SaveConversation | claude_desktop.py:63-72 | the returned record is the input with `updated_at` refreshed and the same `id` (none added); only its storage key changes in the directory; the list is unchanged |
| Store.ConversationManager.DeleteConversation | claude_desktop.py:74-79 | an existing file is removed and every record with that id leaves the list, the others keeping their order; a missing file changes nothing |
| Store.ConversationManager.CreateNewConversation | claude_desktop.py:81-91 | the new record is saved under the creation second, overwriting any file of that second; the list is unchanged |
| Store.ConversationManager.SearchConversations | claude_desktop_enhanced.py:151-165 | the loop with `continue`/`break` returns exactly the search results of the list |
| Window.HasCurrent | claude_desktop.py:528 | `if self.current_conversation`: there is a current record and it is not `{}` (definition; also the test at claude_desktop.py:573) |
| Window.AfterSend | claude_desktop.py:533-547 | the current record after the append and, with auto-save on, after the save that refreshes `updated_at` (definition) |
| Window.DirAfterSend | claude_desktop.py:546-547 | the directory after the auto-save writes the appended record under its storage key, or unchanged without auto-save (definition) |
| Window.ChatWindow.constructor | claude_desktop.py:178-187 | on start the newest conversation, if any, is the current one |
| Window.ChatWindow.NewChat | claude_desktop.py:470-478 | with a non-empty title the saved record goes to index 0, the old list follows in order, and it becomes current; otherwise nothing changes |
| Window.ChatWindow.RenameConversation | claude_desktop_enhanced.py:679-691 | with a non-empty title only `title` changes, then it is saved, which refreshes `updated_at`; an empty or cancelled title changes nothing |
| Window.ChatWindow.ClearChat | claude_desktop.py:563-576 | once confirmed, the current conversation's messages become `[]` and its other fields stay; directory and other records unchanged |
| Window.ChatWindow.AppendToCurrent | claude_desktop.py:531-547 | exactly one user message is appended after the existing messages, then saved if auto-save is on; the clock moves to the instant of the message timestamp; without a current conversation or its `messages` key, nothing changes and the error is reported |
| Window.ChatWindow.NewChatThenAppend | claude_desktop.py:528-547 | with no current conversation, an accepted new chat is created at the front and receives the message; a cancelled one leaves list, directory, current conversation and clock unchanged, with the TypeError or KeyError reported |
| Window.ChatWindow.SendMessage | claude_desktop.py:522-547 | blank input is ignored; without a current conversation a new chat is created first and receives the message; a cancelled new chat leaves everything unchanged, with the TypeError or KeyError the subscript raises; the clock moves to the message's instant when a message is appended, and stays otherwise |
| Window.SearchDialog.PerformSearch | claude_desktop_enhanced.py:360-378 | a blank query after stripping clears the results and searches nothing; any other query shows the search results and their count |
| Export.Header | claude_desktop_enhanced.py:776 | `"# " + title + "\n\n"`, with "Chat" for a missing title (definition) |
| Export.RoleLabel | claude_desktop_enhanced.py:778 | "You" exactly when the role is `user`, "Claude" otherwise (definition) |
| Export.MessageLine | claude_desktop_enhanced.py:779 | `"**" + role + "**: " + content + "\n\n"` for a message with both keys (definition) |
| Export.RenderMessages | claude_desktop_enhanced.py:777-779 | one `**You**: `/`**Claude**: ` paragraph per message in order, stopping at the first message without `role` or `content` (definition) |
| Export.ExportText | claude_desktop_enhanced.py:776-779 | the export is complete iff every message has a `role` and a `content`, and always begins with the `# title` header |
| Export.RenderCompleteIff | claude_desktop_enhanced.py:777-779 | the export runs to the end iff every message has a `role` and a `content` |
| Export.RenderConcat | claude_desktop_enhanced.py:777-779 | the text for `a + b` is the text for `a` followed by the text for `b` |
| Export.ExportAfterUserMessage | claude_desktop.py:513-516 | appending a user message adds exactly one `**You**: content` paragraph at the end of the export |
| Export.ExportAfterClear | claude_desktop_enhanced.py:776-779 | a cleared conversation exports as its header alone |
| Export.RenderStopsAtFirstBadMessage | claude_desktop_enhanced.py:777-779 | an interrupted export holds the paragraphs of exactly the messages before the first one lacking a key |
| Export.ExportChat | claude_desktop_enhanced.py:775-779 | the write loop produces the specified text: the complete export, or the prefix written before the KeyError |

## Left out

- Qt widgets, menus, toolbars, the tray icon, and notifications are not
  modelled; they are user interface. The dialogs become parameters (the text
  entered and whether it was accepted).
- `QSettings`, themes, fonts and window geometry are not modelled. Auto-save
  is a boolean parameter of `SendMessage`.
- `QDesktopServices.openUrl` is not modelled as a call. The hand-off is the
  `openExternally` field of the decision.
- JSON encoding, `glob`, `open` and `unlink` are not modelled. The directory
  is a map. A file that fails to parse is `None`. A write cannot fail. The
  order `glob` lists files in is a parameter (`listing`).
- `datetime` formatting is not modelled. The formats are the fixed-width
  decimals `Iso` and `SecondStamp`, not calendar dates. The parsing in
  `update_conversation_list` is display only.
- Python's Unicode `lower()` is modelled as ASCII lower-casing. `strip()`
  uses Python's whitespace set.
- The JSON branch of the export is not modelled. It is `json.dump`.
- The `ClaudeAPI` thread stub, the HTML rendering in `load_conversation`,
  and `export_specific_chat` are not modelled. The last of these opens a
  save-file dialog and then writes nothing.
- The window's own `delete_conversation` is only modelled as
  `ConversationManager.DeleteConversation`. It wraps that call in a
  confirmation and reads `conv['id']`. The model also does not capture that
  the current conversation may be deleted while the window still holds it.
- The window's current conversation, and the record behind a list item, are
  positions in the manager's list, not shared dict objects. Aliasing
  between the two is therefore not modelled either.
- `Window.ChatWindow.NewChat`: the tray or status-bar notification is left out.
- `Store.ConversationManager.CreateNewConversation`: one instant serves the
  id and `created_at`, where the source reads the clock for each.
  Different seconds between the two readings are therefore not modelled.
- Records whose fields have other JSON types, `null` included, are outside
  the model: every field is a string, a list of messages, or an absent key
  (`None`); other keys are dropped. A key holding `null` behaves
  differently in the source: `.get` returns `None` and not the default, so
  the export writes `# None`, `**Claude**: ` for a `null` role and `None`
  for a `null` content; a save with a `null` id writes `None.json`; search
  raises on a `null` title or content, and the sort raises on a `null`
  `updated_at` beside a string one. In the source, a file that
  is valid JSON but not an object, or an `updated_at` that is not a string
  beside one that is, makes the sort key at `claude_desktop.py:61` raise
  outside the `try`: loading, and with it `__init__`, crashes instead of
  skipping the file. A non-string `title` or `content` likewise makes
  `.lower()` raise in search (`claude_desktop_enhanced.py:157,162`).
- `Window.HasCurrent`: Python truthiness is decided on the five modelled
  keys only. A current record such as `{"id": null}` or `{"name": "x"}` is
  truthy in the source, so `send_message` raises `KeyError` on it, while
  the model treats it as `{}` and asks for a new chat.
- The record behind a list item (`item.data(...)`,
  `claude_desktop_enhanced.py:681`) is taken to be the list's own dict, so
  renaming it updates the list in place; the model does not capture the
  case where Qt hands back a copy.
- `Records.IdsCollideWithinOneSecond`, `Records.SaveRefreshesUpdatedAt`:
  both hold of the model's clock, which only moves forward. `datetime.now()`
  is local wall-clock time. It repeats an hour when daylight saving time
  ends, and then two creates an hour apart share an id, and a save can move
  `updated_at` back. `isoformat()` also drops the `.ffffff` part when the
  microsecond is 0, so it is not fixed-width as `Iso` is (string order
  still agrees with time order).
- `Store.ConversationManager.SaveConversation`: one instant serves the
  default storage key and `updated_at`, where the source reads the clock for
  each (`claude_desktop.py:65,67`).
- `Window.ChatWindow.AppendToCurrent`: one instant serves the message
  timestamp and the auto-save's `updated_at` (and its default key), where
  the source reads the clock at `claude_desktop.py:532` and again in the
  save.
- `Records.SortNewestFirst`, `Store.ConversationManager.LoadConversations`: the order among records with
  equal `updated_at` is fixed by `SortNewestFirst`, which keeps listing
  order as Python's stable `sorted` does. This stability is not stated as a
  lemma.

## Findings

| source | as written | input that shows it | evidently intended | confidence | as-written member | corrected member |
|---|---|---|---|---|---|---|
| claude_desktop_enhanced.py:35 | a host is trusted when "claude.ai" or "anthropic.com" occurs anywhere in it | a link click to host `claude.ai.evil.com` (or `notanthropic.com`) loads inside the app instead of going to the system browser | trust only the domains themselves and their subdomains (host equal to the domain or ending in "." + domain) | high, from reading the code; not executed | Navigation.LookalikeHostTrusted | Navigation.DomainTestRejectsLookalike |
