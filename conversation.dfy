/**
 * The playground's conversation: the message records it keeps and the pure
 * list transformations its handlers hand to `setMessages` (chunk update,
 * edit, delete).
 */
module Conversation {
  import opened Wrappers
  import opened Seqs
  import ThinkSplit

  datatype Role = User | Assistant

  /** One version of a message; only assistant versions get a thinking text. */
  datatype Version = Version(id: string, content: string, thinkingContent: Option<string>)

  /** A file shown under a user message (its `type` is always `'file'`). */
  datatype Attachment = Attachment(url: string, mediaType: string, filename: string)

  datatype Message = Message(
    key: string, from: Role, versions: seq<Version>, attachments: Option<seq<Attachment>>)

  /** `msg.versions.some((v) => v.id === id)`. */
  predicate HasVersion(m: Message, id: string) {
    exists k :: 0 <= k < |m.versions| && m.versions[k].id == id
  }

  /** No message of the list has a version with this id. */
  predicate NoVersion(msgs: seq<Message>, id: string) {
    forall i :: 0 <= i < |msgs| ==> !HasVersion(msgs[i], id)
  }

  // The chunk update: the streamed version gets the latest split of the buffer.

  function StreamVersion(v: Version, id: string, split: ThinkSplit.Split): Version {
    if v.id == id then v.(content := split.content, thinkingContent := Some(split.thinking)) else v
  }

  function StreamMessage(m: Message, id: string, split: ThinkSplit.Split): Message {
    if HasVersion(m, id) then
      m.(versions := seq(|m.versions|, k requires 0 <= k < |m.versions| => StreamVersion(m.versions[k], id, split)))
    else m
  }

  /** The list `setMessages` receives on every chunk: `prev.map(...)` over the messages. */
  function ApplyChunk(msgs: seq<Message>, id: string, split: ThinkSplit.Split): (r: seq<Message>)
    ensures |r| == |msgs|
  {
    seq(|msgs|, i requires 0 <= i < |msgs| => StreamMessage(msgs[i], id, split))
  }

  /**
   * A chunk update keeps the order, the keys, the roles, the attachments and the
   * version ids; the version whose id is the streaming id gets the new content and
   * thinking, and every other version is unchanged.
   */
  lemma ApplyChunkOnly(msgs: seq<Message>, id: string, split: ThinkSplit.Split, i: nat, k: nat)
    requires i < |msgs| && k < |msgs[i].versions|
    ensures var m, v := ApplyChunk(msgs, id, split)[i], msgs[i].versions[k];
      && m.key == msgs[i].key && m.from == msgs[i].from && m.attachments == msgs[i].attachments
      && |m.versions| == |msgs[i].versions|
      && m.versions[k].id == v.id
      && (v.id == id ==> m.versions[k].content == split.content && m.versions[k].thinkingContent == Some(split.thinking))
      && (v.id != id ==> m.versions[k] == v)
  {
    assert msgs[i].versions[k].id == id ==> HasVersion(msgs[i], id);
  }

  /** A message without the streamed version passes through unchanged. */
  lemma ApplyChunkOtherMessage(msgs: seq<Message>, id: string, split: ThinkSplit.Split, i: nat)
    requires i < |msgs| && !HasVersion(msgs[i], id)
    ensures ApplyChunk(msgs, id, split)[i] == msgs[i]
  {
  }

  /** When no version carries the id (the message was deleted), a chunk changes nothing. */
  lemma ApplyChunkAbsent(msgs: seq<Message>, id: string, split: ThinkSplit.Split)
    requires NoVersion(msgs, id)
    ensures ApplyChunk(msgs, id, split) == msgs
  {
  }

  lemma StreamMessageTwice(m: Message, id: string, s1: ThinkSplit.Split, s2: ThinkSplit.Split)
    ensures StreamMessage(StreamMessage(m, id, s1), id, s2) == StreamMessage(m, id, s2)
  {
    if HasVersion(m, id) {
      var k :| 0 <= k < |m.versions| && m.versions[k].id == id;
      var m1 := StreamMessage(m, id, s1);
      assert m1.versions[k].id == id;
    }
  }

  /** Each chunk overwrites the previous one's result: only the latest split is visible. */
  lemma ApplyChunkLastWins(msgs: seq<Message>, id: string, s1: ThinkSplit.Split, s2: ThinkSplit.Split)
    ensures ApplyChunk(ApplyChunk(msgs, id, s1), id, s2) == ApplyChunk(msgs, id, s2)
  {
    var r1 := ApplyChunk(msgs, id, s1);
    forall i | 0 <= i < |msgs|
      ensures ApplyChunk(r1, id, s2)[i] == ApplyChunk(msgs, id, s2)[i]
    {
      StreamMessageTwice(msgs[i], id, s1, s2);
    }
  }

  /** A chunk update distributes over concatenation of message lists. */
  lemma ApplyChunkAppend(a: seq<Message>, b: seq<Message>, id: string, split: ThinkSplit.Split)
    ensures ApplyChunk(a + b, id, split) == ApplyChunk(a, id, split) + ApplyChunk(b, id, split)
  {
    var l, r := ApplyChunk(a + b, id, split), ApplyChunk(a, id, split) + ApplyChunk(b, id, split);
    forall i | 0 <= i < |a + b| ensures l[i] == r[i] {
      if i < |a| { assert (a + b)[i] == a[i]; } else { assert (a + b)[i] == b[i - |a|]; }
    }
  }

  // Saving an edit: the version with the given message key and version id gets new content.

  function EditedVersion(v: Version, versionId: string, content: string): Version {
    if v.id == versionId then v.(content := content) else v
  }

  function EditedMessage(m: Message, messageKey: string, versionId: string, content: string): Message {
    if m.key == messageKey then
      m.(versions := seq(|m.versions|, k requires 0 <= k < |m.versions| => EditedVersion(m.versions[k], versionId, content)))
    else m
  }

  /** The list `handleSaveEdit` hands to `setMessages`. */
  function EditVersion(msgs: seq<Message>, messageKey: string, versionId: string, content: string): (r: seq<Message>)
    ensures |r| == |msgs|
  {
    seq(|msgs|, i requires 0 <= i < |msgs| => EditedMessage(msgs[i], messageKey, versionId, content))
  }

  /**
   * An edit changes the content of exactly the versions with the given id inside the
   * messages with the given key; thinking, ids, keys, roles, attachments and order stay.
   */
  lemma EditVersionOnly(msgs: seq<Message>, messageKey: string, versionId: string, content: string, i: nat, k: nat)
    requires i < |msgs| && k < |msgs[i].versions|
    ensures var m, v := EditVersion(msgs, messageKey, versionId, content)[i], msgs[i].versions[k];
      && m.key == msgs[i].key && m.from == msgs[i].from && m.attachments == msgs[i].attachments
      && |m.versions| == |msgs[i].versions|
      && m.versions[k].id == v.id && m.versions[k].thinkingContent == v.thinkingContent
      && m.versions[k].content == (if msgs[i].key == messageKey && v.id == versionId then content else v.content)
  {
  }

  /** Editing a version that does not exist changes nothing. */
  lemma EditVersionAbsent(msgs: seq<Message>, messageKey: string, versionId: string, content: string)
    requires forall i :: 0 <= i < |msgs| && msgs[i].key == messageKey ==> !HasVersion(msgs[i], versionId)
    ensures EditVersion(msgs, messageKey, versionId, content) == msgs
  {
    var r := EditVersion(msgs, messageKey, versionId, content);
    forall i | 0 <= i < |msgs| ensures r[i] == msgs[i] {
      if msgs[i].key == messageKey {
        assert r[i].versions == msgs[i].versions;
      }
    }
  }

  // Deleting: every message with the given key is dropped.

  /** `prev.filter((msg) => msg.key !== messageKey)`. */
  function RemoveKey(msgs: seq<Message>, messageKey: string): (r: seq<Message>) {
    Filter(msgs, (m: Message) => m.key != messageKey)
  }

  /** Delete drops exactly the messages with the key: nothing with it stays, everything else does. */
  lemma RemoveKeyMembers(msgs: seq<Message>, messageKey: string, m: Message)
    ensures m in RemoveKey(msgs, messageKey) <==> m in msgs && m.key != messageKey
  {
  }

  /** Delete keeps the order of what it keeps: it works piecewise over any split of the list. */
  lemma RemoveKeyAppend(a: seq<Message>, b: seq<Message>, messageKey: string)
    ensures RemoveKey(a + b, messageKey) == RemoveKey(a, messageKey) + RemoveKey(b, messageKey)
  {
    FilterAppend(a, b, (m: Message) => m.key != messageKey);
  }

  /** Deleting a key no message has leaves the list as it was. */
  lemma RemoveKeyAbsent(msgs: seq<Message>, messageKey: string)
    requires forall i :: 0 <= i < |msgs| ==> msgs[i].key != messageKey
    ensures RemoveKey(msgs, messageKey) == msgs
  {
    FilterKeepsAll(msgs, (m: Message) => m.key != messageKey);
  }

  /** Deleting twice is deleting once. */
  lemma RemoveKeyIdempotent(msgs: seq<Message>, messageKey: string)
    ensures RemoveKey(RemoveKey(msgs, messageKey), messageKey) == RemoveKey(msgs, messageKey)
  {
    FilterIdempotent(msgs, (m: Message) => m.key != messageKey);
  }

  /**
   * Deleting the message that holds the streamed version while the stream runs:
   * every further chunk update is then a no-op.
   */
  lemma ChunkAfterDelete(msgs: seq<Message>, messageKey: string, id: string, split: ThinkSplit.Split)
    requires forall i :: 0 <= i < |msgs| && HasVersion(msgs[i], id) ==> msgs[i].key == messageKey
    ensures ApplyChunk(RemoveKey(msgs, messageKey), id, split) == RemoveKey(msgs, messageKey)
  {
    var r := RemoveKey(msgs, messageKey);
    forall i | 0 <= i < |r| ensures !HasVersion(r[i], id) {
      assert r[i] in msgs;
    }
    ApplyChunkAbsent(r, id, split);
  }
}
