/**
 * Chat transcripts kept in local storage, one key per conversation
 * (src/lib/conversationStorage.ts). Local storage is a class whose `items`
 * field maps keys to stored text; whether `setItem` succeeds is the
 * `writable` field. Messages are the parsed JSON values themselves;
 * `JSON.parse` and `JSON.stringify` are parameters.
 */
module ConversationStorage {
  import opened Wrappers
  import opened Json

  const StoragePrefix: string := "ai-chat:"
  const DefaultConversationId: string := "default"

  /** The conversation id after the parameter default: a missing id is "default". */
  function IdOf(conversationId: Option<string>): string {
    conversationId.GetOr(DefaultConversationId)
  }

  /** `getStorageKey(conversationId)`: the prefix followed by the id. */
  function StorageKey(conversationId: Option<string>): (r: string)
    ensures |r| == |StoragePrefix| + |IdOf(conversationId)|
    ensures r[..|StoragePrefix|] == StoragePrefix && r[|StoragePrefix|..] == IdOf(conversationId)
  {
    StoragePrefix + IdOf(conversationId)
  }

  /** Different conversations never share a key; a missing id shares the key of "default". */
  lemma KeysDistinct(a: Option<string>, b: Option<string>)
    ensures StorageKey(a) == StorageKey(b) <==> IdOf(a) == IdOf(b)
  {
    if StorageKey(a) == StorageKey(b) {
      assert IdOf(a) == StorageKey(a)[|StoragePrefix|..];
    }
  }

  /**
   * `readMessages(conversationId)` against the stored items: `[]` outside a
   * browser, for a missing or empty item, for text that does not parse and
   * for a parsed value that is not an array; otherwise the stored array.
   */
  function ReadFrom(inBrowser: bool, items: map<string, string>, conversationId: Option<string>,
                    parse: string -> Option<Json>): (r: seq<Json>)
    ensures var key := StorageKey(conversationId);
      !inBrowser || key !in items || items[key] == [] ==> r == []
    ensures var key := StorageKey(conversationId);
      inBrowser && key in items && items[key] != [] ==>
        r == match parse(items[key]) case Some(JArr(xs)) => xs case _ => []
  {
    var key := StorageKey(conversationId);
    if !inBrowser || key !in items || items[key] == [] then []
    else match parse(items[key])
      case Some(JArr(xs)) => xs
      case _ => []
  }

  /** A list written with a round-tripping `JSON.stringify` reads back as itself. */
  lemma WriteThenRead(items: map<string, string>, msgs: seq<Json>, conversationId: Option<string>,
                      parse: string -> Option<Json>, stringify: Json -> string)
    requires RoundTrips(parse, stringify, JArr(msgs))
    ensures ReadFrom(true, items[StorageKey(conversationId) := stringify(JArr(msgs))], conversationId, parse) == msgs
  {
  }

  /** Writing one conversation leaves what every other conversation reads unchanged. */
  lemma OtherConversationsUntouched(items: map<string, string>, written: Option<string>, text: string,
                                    other: Option<string>, inBrowser: bool, parse: string -> Option<Json>)
    requires IdOf(written) != IdOf(other)
    ensures ReadFrom(inBrowser, items[StorageKey(written) := text], other, parse) == ReadFrom(inBrowser, items, other, parse)
  {
    KeysDistinct(written, other);
  }

  class ConversationStore {
    /** `typeof window !== "undefined"`. */
    const inBrowser: bool
    /** The local-storage items. */
    var items: map<string, string>
    /** Whether `localStorage.setItem` succeeds; it throws when storage is full or disabled. */
    var writable: bool

    constructor(inBrowser: bool, items: map<string, string>, writable: bool)
      ensures this.inBrowser == inBrowser && this.items == items && this.writable == writable
    {
      this.inBrowser := inBrowser;
      this.items := items;
      this.writable := writable;
    }

    /** `readMessages(conversationId)`. */
    function ReadMessages(conversationId: Option<string>, parse: string -> Option<Json>): (r: seq<Json>)
      reads this
      ensures !inBrowser ==> r == []
    {
      ReadFrom(inBrowser, items, conversationId, parse)
    }

    /**
     * `writeMessages(msgs, conversationId)`: the list is stored under its
     * key; a failed write is swallowed, so the call never throws.
     */
    method WriteMessages(msgs: seq<Json>, conversationId: Option<string>, stringify: Json -> string)
      modifies this`items
      ensures inBrowser && writable ==> items == old(items)[StorageKey(conversationId) := stringify(JArr(msgs))]
      ensures !(inBrowser && writable) ==> items == old(items)
    {
      if inBrowser && writable {
        items := items[StorageKey(conversationId) := stringify(JArr(msgs))];
      }
    }

    /**
     * `appendMessages(append, conversationId)`: the current list followed by
     * the new messages, stored and returned.
     */
    method AppendMessages(append: seq<Json>, conversationId: Option<string>,
                          parse: string -> Option<Json>, stringify: Json -> string) returns (next: seq<Json>)
      modifies this`items
      ensures next == old(ReadMessages(conversationId, parse)) + append
      ensures inBrowser && writable ==> items == old(items)[StorageKey(conversationId) := stringify(JArr(next))]
      ensures !(inBrowser && writable) ==> items == old(items)
    {
      var current := ReadMessages(conversationId, parse);
      next := current + append;
      WriteMessages(next, conversationId, stringify);
    }
  }

  /**
   * Appending to a stored conversation and reading it back gives the old
   * list followed by the new messages, when the write succeeds and the
   * text round-trips.
   */
  method AppendThenRead(store: ConversationStore, append: seq<Json>, conversationId: Option<string>,
                        parse: string -> Option<Json>, stringify: Json -> string) returns (readBack: seq<Json>)
    requires store.inBrowser && store.writable
    requires RoundTrips(parse, stringify, JArr(store.ReadMessages(conversationId, parse) + append))
    modifies store`items
    ensures readBack == old(store.ReadMessages(conversationId, parse)) + append
  {
    var next := store.AppendMessages(append, conversationId, parse, stringify);
    WriteThenRead(old(store.items), next, conversationId, parse, stringify);
    readBack := store.ReadMessages(conversationId, parse);
  }
}
