/**
 * The chat-completion request `sendChatRequest` assembles: the prior messages
 * flattened into a transcript of `{ role, content }` entries, followed by the
 * current user turn, which is plain text or, with attachments, a list of parts.
 */
module ChatRequest {
  import opened Wrappers
  import opened Seqs
  import opened Text
  import opened Conversation

  /** One part of a multimodal turn. */
  datatype Part = TextPart(text: string) | ImagePart(url: string)

  /** The `content` of a transcript entry: a plain string or a parts list. */
  datatype Content = Plain(text: string) | Parts(parts: seq<Part>)

  /** A transcript entry; it has no thinking text. */
  datatype ChatMessage = ChatMessage(role: Role, content: Content)

  /** A file the prompt input submits; `mediaType` and `filename` may be missing. */
  datatype FileInput = FileInput(kind: string, url: string, mediaType: Option<string>, filename: Option<string>)

  /** The request the stream is opened with (the sampling settings are not modelled). */
  datatype Request = Request(model: string, messages: seq<ChatMessage>)

  // The transcript of the prior messages.

  /** One entry per version of the message, in version order. */
  function Entries(m: Message): (r: seq<ChatMessage>)
    ensures |r| == |m.versions|
  {
    seq(|m.versions|, k requires 0 <= k < |m.versions| => ChatMessage(m.from, Plain(m.versions[k].content)))
  }

  /** `messages.flatMap(msg => msg.versions.map(v => ({ role, content: v.content })))`. */
  function History(msgs: seq<Message>): seq<ChatMessage> {
    if msgs == [] then [] else Entries(msgs[0]) + History(msgs[1..])
  }

  /** The number of versions in the message list. */
  function VersionCount(msgs: seq<Message>): nat {
    if msgs == [] then 0 else |msgs[0].versions| + VersionCount(msgs[1..])
  }

  /** The transcript has one entry per version of every prior message. */
  lemma {:induction false} HistoryLength(msgs: seq<Message>)
    ensures |History(msgs)| == VersionCount(msgs)
  {
    if msgs != [] {
      HistoryLength(msgs[1..]);
    }
  }

  /** Flattening works piecewise over any split of the message list. */
  lemma {:induction false} HistoryAppend(a: seq<Message>, b: seq<Message>)
    ensures History(a + b) == History(a) + History(b)
  {
    if a == [] {
      assert a + b == b;
    } else {
      assert (a + b)[1..] == a[1..] + b;
      HistoryAppend(a[1..], b);
    }
  }

  lemma {:induction false} VersionCountAppend(a: seq<Message>, b: seq<Message>)
    ensures VersionCount(a + b) == VersionCount(a) + VersionCount(b)
  {
    if a == [] {
      assert a + b == b;
    } else {
      assert (a + b)[1..] == a[1..] + b;
      VersionCountAppend(a[1..], b);
    }
  }

  /**
   * Version `k` of message `i` sits right after the versions of the messages before
   * it, carrying the message's role and the version's content.
   */
  lemma HistoryAt(msgs: seq<Message>, i: nat, k: nat)
    requires i < |msgs| && k < |msgs[i].versions|
    ensures var offset := VersionCount(msgs[..i]);
      && offset + k < |History(msgs)|
      && History(msgs)[offset + k] == ChatMessage(msgs[i].from, Plain(msgs[i].versions[k].content))
  {
    assert msgs == msgs[..i] + ([msgs[i]] + msgs[i + 1..]);
    HistoryAppend(msgs[..i], [msgs[i]] + msgs[i + 1..]);
    HistoryLength(msgs[..i]);
    HistoryAppend([msgs[i]], msgs[i + 1..]);
    assert History([msgs[i]]) == Entries(msgs[i]) by {
      assert [msgs[i]][1..] == [];
    }
  }

  // The current turn.

  /** `file.type === 'file' && file.mediaType?.startsWith('image/')`. */
  predicate IsImageFile(f: FileInput) {
    f.kind == "file" && f.mediaType.Some? && StartsWith(f.mediaType.value, "image/")
  }

  /** One `image_url` part per image file, in file order. */
  function ImageParts(files: seq<FileInput>): (r: seq<Part>)
    ensures forall k :: 0 <= k < |r| ==> r[k].ImagePart?
  {
    var images := Filter(files, IsImageFile);
    seq(|images|, k requires 0 <= k < |images| => ImagePart(images[k].url))
  }

  /** The optional leading text part: present exactly when the text is non-empty. */
  function TextParts(userContent: string): seq<Part> {
    if userContent != "" then [TextPart(userContent)] else []
  }

  /** What the current turn's `content` is, as page.tsx lines 245-271 decide it. */
  function CurrentContent(userContent: string, files: seq<FileInput>): Content {
    if |files| > 0 then Parts(TextParts(userContent) + ImageParts(files)) else Plain(userContent)
  }

  /** Adding a file adds its image part at the end, or nothing when it is not an image. */
  lemma ImagePartsSnoc(files: seq<FileInput>, f: FileInput)
    ensures ImageParts(files + [f]) ==
      ImageParts(files) + (if IsImageFile(f) then [ImagePart(f.url)] else [])
  {
    FilterAppend(files, [f], IsImageFile);
    assert Filter([f], IsImageFile) == (if IsImageFile(f) then [f] else []) by {
      assert [f][1..] == [];
    }
  }

  /** The image parts of a prefix grow by the next file's part, if it is an image. */
  lemma ImagePartsStep(files: seq<FileInput>, i: nat)
    requires i < |files|
    ensures ImageParts(files[..i + 1]) ==
      ImageParts(files[..i]) + (if IsImageFile(files[i]) then [ImagePart(files[i].url)] else [])
  {
    assert files[..i + 1] == files[..i] + [files[i]];
    ImagePartsSnoc(files[..i], files[i]);
  }

  /** The image parts come from exactly the image files: each image file's url is there, and each part's url is an image file's. */
  lemma ImagePartsFromImages(files: seq<FileInput>, url: string)
    ensures ImagePart(url) in ImageParts(files) <==> exists f :: f in files && IsImageFile(f) && f.url == url
  {
    var images := Filter(files, IsImageFile);
    var r := ImageParts(files);
    if ImagePart(url) in r {
      var k :| 0 <= k < |r| && r[k] == ImagePart(url);
      assert images[k] in files && IsImageFile(images[k]);
    }
    if exists f :: f in files && IsImageFile(f) && f.url == url {
      var f :| f in files && IsImageFile(f) && f.url == url;
      assert f in images;
      var k :| 0 <= k < |images| && images[k] == f;
      assert r[k] == ImagePart(url);
    }
  }

  /**
   * With attachments the turn is a parts list whose first part is text exactly when
   * the text is non-empty, and whose other parts are the image parts; without
   * attachments it is the text itself.
   */
  lemma CurrentContentShape(userContent: string, files: seq<FileInput>)
    ensures |files| == 0 ==> CurrentContent(userContent, files) == Plain(userContent)
    ensures |files| > 0 ==> var c := CurrentContent(userContent, files);
      && c.Parts?
      && (|c.parts| > 0 && c.parts[0].TextPart? <==> userContent != "")
      && (userContent != "" ==> c.parts[0] == TextPart(userContent) && c.parts[1..] == ImageParts(files))
      && (userContent == "" ==> c.parts == ImageParts(files))
  {
    if |files| > 0 && userContent != "" {
      var c := CurrentContent(userContent, files);
      assert c.parts == [TextPart(userContent)] + ImageParts(files);
    }
  }

  /**
   * The loop at page.tsx lines 249-267: the parts list starts with the optional text part and
   * gets one image part pushed per image file.
   */
  method BuildCurrentContent(userContent: string, files: seq<FileInput>) returns (c: Content)
    ensures c == CurrentContent(userContent, files)
  {
    if |files| > 0 {
      var parts: seq<Part> := [];
      if userContent != "" {
        parts := parts + [TextPart(userContent)];
      }
      var i := 0;
      while i < |files|
        invariant 0 <= i <= |files|
        invariant parts == TextParts(userContent) + ImageParts(files[..i])
      {
        var file := files[i];
        ImagePartsStep(files, i);
        if file.kind == "file" && file.mediaType.Some? && StartsWith(file.mediaType.value, "image/") {
          parts := parts + [ImagePart(file.url)];
          assert TextParts(userContent) + ImageParts(files[..i]) + [ImagePart(file.url)]
            == TextParts(userContent) + (ImageParts(files[..i]) + [ImagePart(file.url)]);
        }
        i := i + 1;
      }
      assert files[..i] == files;
      c := Parts(parts);
    } else {
      c := Plain(userContent);
    }
  }

  /** The whole transcript sent: the prior messages' versions, then the current turn. */
  function Transcript(prior: seq<Message>, userContent: string, files: seq<FileInput>): (r: seq<ChatMessage>)
    ensures |r| == VersionCount(prior) + 1
    ensures r[..|r| - 1] == History(prior)
    ensures r[|r| - 1] == ChatMessage(User, CurrentContent(userContent, files))
  {
    HistoryLength(prior);
    History(prior) + [ChatMessage(User, CurrentContent(userContent, files))]
  }
}
