/**
 * Conversation records as the store keeps them, and the pure specifications
 * the store's operations are proved against: filtering (delete, search), the
 * search predicate, the newest-first order of `load_conversations`, and the
 * records a directory listing yields.
 *
 * A record is a JSON object; every field is optional because a file on disk
 * may lack any key, and the code reads each one with `.get(key, default)`.
 * `None` is an absent key; a key holding `null` is not modelled.
 */
module Records {
  import opened Wrappers
  import opened Text
  import opened Clock

  datatype Message = Message(role: Option<string>, content: Option<string>, timestamp: Option<string>)

  datatype Record = Record(
    id: Option<string>,
    title: Option<string>,
    messages: Option<seq<Message>>,
    createdAt: Option<string>,
    updatedAt: Option<string>)

  /** The record is `{}`, the one record Python's `if not conversation` treats as false. */
  predicate IsEmptyDict(r: Record) {
    r == Record(None, None, None, None, None)
  }

  /** The sort key of `load_conversations`: `updated_at`, or "" when absent. */
  function UpdatedKey(r: Record): string {
    r.updatedAt.GetOr("")
  }

  /** The key `save_conversation` writes under: the record's `id`, or the current second when it has none. */
  function StorageKey(r: Record, now: Instant): string {
    r.id.GetOr(SecondStamp(now))
  }

  /** The record after `save_conversation` has refreshed its `updated_at`. */
  function Stamped(r: Record, now: Instant): Record {
    r.(updatedAt := Some(Iso(now)))
  }

  /** The dictionary `create_new_conversation` builds before saving it. */
  function NewConversation(title: string, now: Instant): Record {
    Record(Some(SecondStamp(now)), Some(title), Some([]), Some(Iso(now)), Some(Iso(now)))
  }

  /** The message `send_message` appends. */
  function UserMessage(content: string, now: Instant): Message {
    Message(Some("user"), Some(content), Some(SecondStamp(now)))
  }

  /** The record with one more message at the end of `messages`. */
  function WithUserMessage(r: Record, content: string, now: Instant): Record
    requires r.messages.Some?
  {
    r.(messages := Some(r.messages.value + [UserMessage(content, now)]))
  }

  /** Saving later never moves `updated_at` back, and changes nothing else in the record. */
  lemma SaveRefreshesUpdatedAt(r: Record, previous: Instant, now: Instant)
    requires r.updatedAt == Some(Iso(previous)) && previous <= now
    ensures StrLe(UpdatedKey(r), UpdatedKey(Stamped(r, now)))
    ensures Stamped(r, now).(updatedAt := r.updatedAt) == r
  {
    IsoOrder(previous, now);
  }

  /**
   * A conversation created at `created` and saved at `saved` has the given
   * title, no messages, its id as storage key, and `created_at <= updated_at`.
   */
  lemma CreatedNotAfterUpdated(title: string, created: Instant, saved: Instant)
    requires created <= saved
    ensures var r := Stamped(NewConversation(title, created), saved);
      && r.title == Some(title) && r.messages == Some([])
      && StorageKey(r, saved) == SecondStamp(created)
      && StrLe(r.createdAt.value, r.updatedAt.value)
  {
    IsoOrder(created, saved);
  }

  /** Two conversations created within the same second get the same id, and only then. */
  lemma IdsCollideWithinOneSecond(title1: string, t1: Instant, title2: string, t2: Instant)
    ensures NewConversation(title1, t1).id == NewConversation(title2, t2).id
            <==> t1 / MicrosPerSecond == t2 / MicrosPerSecond
  {
    SecondStampCollision(t1, t2);
  }

  // ---------------------------------------------------------------------------
  // Order-preserving filtering

  /** `a` is obtained from `b` by deleting elements: same relative order, every position used at most once. */
  predicate IsSubsequence<T(==)>(a: seq<T>, b: seq<T>)
    decreases |b|
  {
    a == [] ||
    (b != [] &&
     ((a[|a| - 1] == b[|b| - 1] && IsSubsequence(a[..|a| - 1], b[..|b| - 1]))
      || IsSubsequence(a, b[..|b| - 1])))
  }

  /** A list comprehension `[x for x in s if p(x)]`. */
  function Filter<T(==,!new)>(s: seq<T>, p: T -> bool): (r: seq<T>)
    ensures |r| <= |s|
    ensures forall x :: x in r <==> x in s && p(x)
    ensures IsSubsequence(r, s)
    decreases |s|
  {
    if s == [] then []
    else
      var init, last := s[..|s| - 1], s[|s| - 1];
      var kept := Filter(init, p);
      var r := kept + (if p(last) then [last] else []);
      assert s[..|s| - 1] == init;
      assert p(last) ==> r[..|r| - 1] == kept && r[|r| - 1] == last;
      assert !p(last) ==> r == kept;
      r
  }

  /** Each element meeting the condition is kept as many times as `s` holds it; the others not at all. */
  lemma {:induction false} FilterCount<T(!new)>(s: seq<T>, p: T -> bool)
    ensures forall x :: multiset(Filter(s, p))[x] == if p(x) then multiset(s)[x] else 0
    decreases |s|
  {
    if s != [] {
      var init, last := s[..|s| - 1], s[|s| - 1];
      FilterCount(init, p);
      assert s == init + [last];
      assert Filter(s, p) == Filter(init, p) + (if p(last) then [last] else []);
    }
  }

  /** Filtering with a condition every element meets changes nothing. */
  lemma {:induction false} FilterKeepsAll<T(!new)>(s: seq<T>, p: T -> bool)
    requires forall x :: x in s ==> p(x)
    ensures Filter(s, p) == s
    decreases |s|
  {
    if s != [] {
      var init, last := s[..|s| - 1], s[|s| - 1];
      assert s == init + [last];
      forall x | x in init ensures p(x) {
        assert x in s;
      }
      FilterKeepsAll(init, p);
      assert p(last);
    }
  }

  /** Filtering twice with the same condition is filtering once. */
  lemma {:induction false} FilterIdempotent<T(!new)>(s: seq<T>, p: T -> bool)
    ensures Filter(Filter(s, p), p) == Filter(s, p)
  {
    FilterKeepsAll(Filter(s, p), p);
  }

  /** `[c for c in conversations if c.get('id') != conv_id]`. */
  function WithoutId(cs: seq<Record>, id: string): seq<Record> {
    Filter(cs, (r: Record) => r.id != Some(id))
  }

  /**
   * Removing an id keeps exactly the records with another id or none, each as
   * many times as the list holds it, in their order; doing it again changes
   * nothing.
   */
  lemma WithoutIdKeepsOthers(cs: seq<Record>, id: string)
    ensures forall r :: r in WithoutId(cs, id) <==> r in cs && r.id != Some(id)
    ensures forall r :: multiset(WithoutId(cs, id))[r] == if r.id == Some(id) then 0 else multiset(cs)[r]
    ensures IsSubsequence(WithoutId(cs, id), cs)
    ensures WithoutId(WithoutId(cs, id), id) == WithoutId(cs, id)
  {
    FilterIdempotent(cs, (r: Record) => r.id != Some(id));
    FilterCount(cs, (r: Record) => r.id != Some(id));
  }

  // ---------------------------------------------------------------------------
  // Search

  predicate TitleMatches(r: Record, queryLower: string) {
    IsSubstring(queryLower, Lower(r.title.GetOr("")))
  }

  predicate MessageMatches(m: Message, queryLower: string) {
    IsSubstring(queryLower, Lower(m.content.GetOr("")))
  }

  /** The lower-cased query occurs in the lower-cased title or in the lower-cased content of some message. */
  predicate Matches(r: Record, query: string) {
    TitleMatches(r, Lower(query))
    || exists m :: m in r.messages.GetOr([]) && MessageMatches(m, Lower(query))
  }

  /** What `search_conversations(query)` returns. */
  function SearchResults(cs: seq<Record>, query: string): seq<Record> {
    Filter(cs, (r: Record) => Matches(r, query))
  }

  /** Searching one more record appends it to the results exactly when it matches. */
  lemma SearchResultsSnoc(cs: seq<Record>, x: Record, query: string)
    ensures SearchResults(cs + [x], query) == SearchResults(cs, query) + (if Matches(x, query) then [x] else [])
  {
    assert (cs + [x])[..|cs + [x]| - 1] == cs;
  }

  /**
   * A record is found iff it is in the list and the query occurs, ignoring
   * case, in its title or a message; the results keep the list's order and
   * take each position at most once, and a matching record appears as often as the list holds it.
   */
  lemma SearchResultsCharacterized(cs: seq<Record>, query: string)
    ensures forall r :: r in SearchResults(cs, query) <==>
      r in cs && (IsSubstring(Lower(query), Lower(r.title.GetOr("")))
                  || exists m :: m in r.messages.GetOr([]) && IsSubstring(Lower(query), Lower(m.content.GetOr(""))))
    ensures IsSubsequence(SearchResults(cs, query), cs)
    ensures forall r :: multiset(SearchResults(cs, query))[r] == if Matches(r, query) then multiset(cs)[r] else 0
  {
    FilterCount(cs, (r: Record) => Matches(r, query));
  }

  /** The empty query occurs everywhere, so without the dialog's guard it would return every record. */
  lemma EmptyQueryMatchesEverything(cs: seq<Record>)
    ensures SearchResults(cs, "") == cs
  {
    forall r | r in cs ensures Matches(r, "") {
      assert IsPrefix(Lower(""), Lower(r.title.GetOr("")));
    }
    FilterKeepsAll(cs, (r: Record) => Matches(r, ""));
  }

  // ---------------------------------------------------------------------------
  // Newest first: sorted(..., key=lambda x: x.get('updated_at', ''), reverse=True)

  predicate NewestFirst(s: seq<Record>) {
    forall i, j :: 0 <= i < j < |s| ==> StrLe(UpdatedKey(s[j]), UpdatedKey(s[i]))
  }

  lemma InsertAtFront(x: Record, s: seq<Record>)
    requires NewestFirst(s)
    requires s == [] || StrLe(UpdatedKey(s[0]), UpdatedKey(x))
    ensures NewestFirst([x] + s)
  {
    var r := [x] + s;
    forall i, j | 0 <= i < j < |r| ensures StrLe(UpdatedKey(r[j]), UpdatedKey(r[i])) {
      if i == 0 && j > 1 {
        StrLeTransitive(UpdatedKey(s[j - 1]), UpdatedKey(s[0]), UpdatedKey(x));
      }
    }
  }

  lemma InsertBehindHead(x: Record, s: seq<Record>, rest: seq<Record>)
    requires NewestFirst(s) && s != [] && !StrLe(UpdatedKey(s[0]), UpdatedKey(x))
    requires NewestFirst(rest) && multiset(rest) == multiset(s[1..]) + multiset{x}
    ensures NewestFirst([s[0]] + rest)
  {
    var r := [s[0]] + rest;
    StrLeTotal(UpdatedKey(s[0]), UpdatedKey(x));
    forall i, j | 0 <= i < j < |r| ensures StrLe(UpdatedKey(r[j]), UpdatedKey(r[i])) {
      if i == 0 {
        var y := rest[j - 1];
        assert y in multiset(rest);
        if y != x {
          assert y in multiset(s[1..]);
          var k :| 0 <= k < |s[1..]| && s[1..][k] == y;
          assert s[k + 1] == y;
        }
      }
    }
  }

  /** Insert `x` before the first element that is not newer than it. */
  function InsertNewestFirst(x: Record, s: seq<Record>): (r: seq<Record>)
    requires NewestFirst(s)
    ensures NewestFirst(r)
    ensures multiset(r) == multiset(s) + multiset{x}
    decreases |s|
  {
    if s == [] || StrLe(UpdatedKey(s[0]), UpdatedKey(x)) then
      InsertAtFront(x, s);
      [x] + s
    else
      assert s == [s[0]] + s[1..];
      var rest := InsertNewestFirst(x, s[1..]);
      InsertBehindHead(x, s, rest);
      [s[0]] + rest
  }

  /** `sorted(..., reverse=True)` by `updated_at`: newest first, the same records. */
  function SortNewestFirst(s: seq<Record>): (r: seq<Record>)
    ensures NewestFirst(r)
    ensures multiset(r) == multiset(s)
    decreases |s|
  {
    if s == [] then []
    else
      assert s == [s[0]] + s[1..];
      InsertNewestFirst(s[0], SortNewestFirst(s[1..]))
  }

  // ---------------------------------------------------------------------------
  // The conversations directory

  /** The directory: file stem (the key) to record, `None` for a file that does not parse. */
  type Directory = map<string, Option<Record>>

  /** `listing` names every file of `files` exactly once, in some order. */
  ghost predicate EnumeratesFiles(files: Directory, listing: seq<string>) {
    (forall k :: k in files <==> k in listing)
    && forall i, j :: 0 <= i < j < |listing| ==> listing[i] != listing[j]
  }

  /** The records of the files in `listing`, in that order, skipping the files that do not parse. */
  function ParsedInOrder(files: Directory, listing: seq<string>): seq<Record>
    requires forall k :: k in listing ==> k in files
    decreases |listing|
  {
    if listing == [] then []
    else
      ParsedInOrder(files, listing[..|listing| - 1])
      + (match files[listing[|listing| - 1]] case Some(r) => [r] case None => [])
  }

  lemma {:induction false} ParsedMembers(files: Directory, listing: seq<string>)
    requires forall k :: k in listing ==> k in files
    ensures forall r :: r in ParsedInOrder(files, listing) <==> exists k :: k in listing && files[k] == Some(r)
    decreases |listing|
  {
    if listing != [] {
      var init := listing[..|listing| - 1];
      ParsedMembers(files, init);
      assert listing == init + [listing[|listing| - 1]];
    }
  }

  /**
   * Loading a directory yields, newest first, exactly the records of the files
   * that parse: a file that fails to parse is skipped, every other one appears.
   */
  lemma LoadedIffParsable(files: Directory, listing: seq<string>)
    requires EnumeratesFiles(files, listing)
    ensures NewestFirst(SortNewestFirst(ParsedInOrder(files, listing)))
    ensures forall r :: r in SortNewestFirst(ParsedInOrder(files, listing))
                        <==> exists k :: k in files && files[k] == Some(r)
  {
    var parsed := ParsedInOrder(files, listing);
    ParsedMembers(files, listing);
    forall r ensures r in SortNewestFirst(parsed) <==> r in parsed {
      assert r in SortNewestFirst(parsed) <==> r in multiset(SortNewestFirst(parsed));
    }
  }

  /** After a save, any later load of the directory lists the saved record. */
  lemma SavedRecordIsLoaded(files: Directory, r: Record, now: Instant, listing: seq<string>)
    requires EnumeratesFiles(files[StorageKey(r, now) := Some(Stamped(r, now))], listing)
    ensures Stamped(r, now) in SortNewestFirst(ParsedInOrder(files[StorageKey(r, now) := Some(Stamped(r, now))], listing))
  {
    var after := files[StorageKey(r, now) := Some(Stamped(r, now))];
    LoadedIffParsable(after, listing);
    assert after[StorageKey(r, now)] == Some(Stamped(r, now));
  }
}
