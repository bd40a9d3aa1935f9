/** The browser's local storage as the chat widget uses it: a string-to-string
    store in which each saved conversation sits under a key made of a fixed
    prefix and the save's timestamp. */
module HistoryStore {
  import opened Wrappers
  import opened Messages
  import Json

  /** The prefix that marks a key as a saved conversation. */
  const KeyPrefix: string := "chat_history_"

  predicate IsHistoryKey(key: string) {
    KeyPrefix <= key
  }

  /** The key a conversation saved at the given timestamp is stored under;
      the timestamp is opaque text (an ISO-8601 date in the browser). */
  function HistoryKeyFor(timestamp: string): (key: string)
    ensures IsHistoryKey(key)
    ensures |key| == |KeyPrefix| + |timestamp| && key[|KeyPrefix|..] == timestamp
  {
    KeyPrefix + timestamp
  }

  /** The keys, in enumeration order, that the history list shows at start-up:
      exactly those that carry the prefix. */
  function SavedHistoryKeys(keys: seq<string>): (r: seq<string>)
    ensures forall k :: k in r <==> k in keys && IsHistoryKey(k)
    ensures |r| <= |keys|
  {
    if keys == [] then []
    else (if IsHistoryKey(keys[0]) then [keys[0]] else []) + SavedHistoryKeys(keys[1..])
  }

  /** The filter keeps the enumeration order: filtering a concatenation is
      the concatenation of the filtered parts. */
  lemma {:induction false} SavedHistoryKeysAppend(a: seq<string>, b: seq<string>)
    ensures SavedHistoryKeys(a + b) == SavedHistoryKeys(a) + SavedHistoryKeys(b)
  {
    if a == [] {
      assert a + b == b;
    } else {
      var head := if IsHistoryKey(a[0]) then [a[0]] else [];
      assert (a + b)[0] == a[0];
      assert (a + b)[1..] == a[1..] + b;
      SavedHistoryKeysAppend(a[1..], b);
      assert head + (SavedHistoryKeys(a[1..]) + SavedHistoryKeys(b))
          == (head + SavedHistoryKeys(a[1..])) + SavedHistoryKeys(b);
    }
  }

  predicate Distinct(s: seq<string>) {
    forall i, j :: 0 <= i < j < |s| ==> s[i] != s[j]
  }

  /** A key enumeration without repeats gives a history list without repeats. */
  lemma {:induction false} SavedHistoryKeysDistinct(keys: seq<string>)
    requires Distinct(keys)
    ensures Distinct(SavedHistoryKeys(keys))
  {
    if keys != [] {
      SavedHistoryKeysDistinct(keys[1..]);
    }
  }

  /** What loading a key shows: the stored conversation when the key holds a
      non-empty value that parses as one, None otherwise (an absent key, an
      empty value that the truthiness test rejects, or text JSON.parse would
      throw on). */
  function StoredConversation(items: map<string, string>, key: string): (r: Option<seq<Message>>)
    ensures key !in items ==> r == None
    ensures r.Some? ==> key in items && items[key] == Json.Encode(r.value)
  {
    if key in items && items[key] != "" then
      var r := Json.Decode(items[key]);
      if r.Some? then Json.EncodeDecode(items[key], r.value); r else r
    else None
  }

  /** Writing a conversation under a key and then loading that key gives the
      conversation back, messages and order intact. */
  lemma SaveLoadRoundTrip(items: map<string, string>, key: string, ms: seq<Message>)
    ensures StoredConversation(items[key := Json.Encode(ms)], key) == Some(ms)
  {
    Json.DecodeEncode(ms);
  }

  /** The browser's localStorage: it outlives the chat component, and every
      write replaces the value under its key. */
  class LocalStorage {
    var items: map<string, string>

    /** The store as the page finds it when it loads. */
    constructor (persisted: map<string, string>)
      ensures items == persisted
    {
      items := persisted;
    }

    method SetItem(key: string, value: string)
      modifies this
      ensures items == old(items)[key := value]
    {
      items := items[key := value];
    }
  }
}
