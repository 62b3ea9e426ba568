/**
 * Items, the media lists built from them for a repost, and the shape of the
 * requests the bot makes to the chat service.
 */
module Media {
  import opened Wrappers
  import opened Text
  import opened Callbacks
  import opened Selection

  datatype MediaKind = Photo | Video

  /** One item of a payload: the media and the identity and caption of the message it came from. */
  datatype Item = Item(fileId: string, kind: MediaKind, userId: int, chatId: int, username: string, caption: string)

  /** A row of the pending table: groupKey is "" for a single message, the
      "chat_id:media_group_id" key for an album. */
  datatype Submission = Submission(chatId: int, userId: int, username: string, groupKey: string,
                                   isAlbum: bool, caption: string, items: seq<Item>)

  /** InputMediaPhoto or InputMediaVideo; caption None unless one was attached. */
  datatype InputMedia = InputMedia(kind: MediaKind, fileId: string, caption: Option<string>)

  datatype Target = MainGroup | ApprovalGroup

  /** The text messages the bot sends, without their wording. */
  datatype Notice =
    | NewSubmission(username: string, id: int)
    | Attribution(username: string)
    | RejectionNotice(username: string)
    | AllReviewed(id: int)

  /** One request to the chat service: send_media_group, send_photo/send_video, or
      send_message; buttons holds the callback_data of the attached keyboard. */
  datatype Post =
    | Batch(target: Target, media: seq<InputMedia>)
    | Single(target: Target, item: InputMedia, buttons: seq<string>)
    | Text(target: Target, notice: Notice, buttons: seq<string>)

  /** The items as media, no caption anywhere. */
  function Plain(items: seq<Item>): seq<InputMedia> {
    seq(|items|, i requires 0 <= i < |items| => InputMedia(items[i].kind, items[i].fileId, None))
  }

  /** A caption is attached to the first media only, and only when it is not empty. */
  function CaptionFirst(media: seq<InputMedia>, caption: string): (r: seq<InputMedia>)
    ensures |r| == |media|
    ensures media != [] && media[0].caption == None ==> CaptionOf(r) == caption
  {
    if media == [] || caption == "" then media else media[0 := media[0].(caption := Some(caption))]
  }

  /** The media list of a repost: the items in order, the caption on the first. */
  function Arrange(items: seq<Item>, caption: string): (r: seq<InputMedia>)
    ensures |r| == |items|
    ensures CaptionOf(r) == if items == [] then "" else caption
  {
    CaptionFirst(Plain(items), caption)
  }

  /** The caption a reader of a media list sees: that of its first media, if any. */
  function CaptionOf(media: seq<InputMedia>): string {
    if media != [] && media[0].caption.Some? then media[0].caption.value else ""
  }

  /** The items and the caption can be read back from the media list: same files and
      kinds in the same order, the caption on the first media and nowhere else, and no
      caption at all when it was empty. */
  lemma ArrangeRoundTrip(items: seq<Item>, caption: string)
    requires items != []
    ensures |Arrange(items, caption)| == |items|
    ensures forall i :: 0 <= i < |items| ==>
              Arrange(items, caption)[i].fileId == items[i].fileId && Arrange(items, caption)[i].kind == items[i].kind
    ensures CaptionOf(Arrange(items, caption)) == caption
    ensures Arrange(items, caption)[0].caption.Some? <==> caption != ""
    ensures forall i :: 1 <= i < |items| ==> Arrange(items, caption)[i].caption == None
  {
  }

  /** Several media go out as one batch, a single one on its own; either way the
      media sent are exactly the list given. */
  function Publish(target: Target, media: seq<InputMedia>): (p: Post)
    requires media != []
    ensures p.Batch? <==> |media| > 1
    ensures Published(p) == media && p.target == target
  {
    if |media| > 1 then Batch(target, media) else Single(target, media[0], [])
  }

  /** The media a request sends. */
  function Published(p: Post): seq<InputMedia> {
    match p
    case Batch(_, media) => media
    case Single(_, item, _) => [item]
    case Text(_, _, _) => []
  }

  /** The enumerate loop that builds the media list in forward_to_approval_group and
      cb_approve_all. */
  method BuildMedia(items: seq<Item>, caption: string) returns (media: seq<InputMedia>)
    ensures media == Arrange(items, caption)
  {
    media := [];
    var idx := 0;
    while idx < |items|
      invariant 0 <= idx <= |items|
      invariant |media| == idx
      invariant forall j :: 0 <= j < idx ==> media[j] == Arrange(items, caption)[j]
    {
      var it := items[idx];
      var im := InputMedia(it.kind, it.fileId, None);
      if idx == 0 && caption != "" {
        im := im.(caption := Some(caption));
      }
      media := media + [im];
      idx := idx + 1;
    }
  }

  lemma PlainAppend(items: seq<Item>, extra: seq<Item>)
    ensures Plain(items + extra) == Plain(items) + Plain(extra)
  {
    assert |Plain(items + extra)| == |Plain(items) + Plain(extra)|;
    forall j | 0 <= j < |items| + |extra|
      ensures Plain(items + extra)[j] == (Plain(items) + Plain(extra))[j]
    {
      if j >= |items| {
        assert (items + extra)[j] == extra[j - |items|];
      }
    }
  }

  /** The enumerate loop of cb_finalize: the kept items, in order, without caption. */
  method CollectKept(items: seq<Item>, sel: Decisions) returns (media: seq<InputMedia>)
    ensures media == Plain(Kept(items, sel))
  {
    media := [];
    var idx := 0;
    while idx < |items|
      invariant 0 <= idx <= |items|
      invariant media == Plain(Kept(items[..idx], sel))
    {
      assert items[..idx + 1][..idx] == items[..idx];
      var added := if Keep(sel, idx) then [items[idx]] else [];
      PlainAppend(Kept(items[..idx], sel), added);
      if Keep(sel, idx) {
        media := media + [InputMedia(items[idx].kind, items[idx].fileId, None)];
      }
      idx := idx + 1;
    }
    assert items[..|items|] == items;
  }

  /** The media list of cb_finalize: the kept items, in order, with the caption on
      the first of them when it is not empty. */
  method FinalizedMedia(items: seq<Item>, sel: Decisions, caption: string) returns (media: seq<InputMedia>)
    ensures media == Arrange(Kept(items, sel), caption)
  {
    media := CollectKept(items, sel);
    if media != [] && caption != "" {
      media := media[0 := media[0].(caption := Some(caption))];
    }
  }

  /** The caption of the prompt for item number index: "Item #" and its 1-based position. */
  function ItemLabel(index: int): string {
    "Item #" + IntToString(index + 1)
  }

  /** The prompt sent for one item during selective review: the media itself, labelled,
      with its Keep and Remove buttons. */
  function ItemPrompt(id: int, index: int, it: Item): Post {
    Single(ApprovalGroup, InputMedia(it.kind, it.fileId, Some(ItemLabel(index))), KeepRemoveButtons(id, index))
  }

  /** The prompts for the first n items. */
  function ItemPrompts(id: int, items: seq<Item>, n: nat): (r: seq<Post>)
    requires n <= |items|
    ensures |r| == n
  {
    if n == 0 then [] else ItemPrompts(id, items, n - 1) + [ItemPrompt(id, n - 1, items[n - 1])]
  }

  /** The enumerate loop of cb_selective: one prompt per item, in order. */
  method SelectionPrompts(id: int, items: seq<Item>) returns (prompts: seq<Post>)
    ensures prompts == ItemPrompts(id, items, |items|)
  {
    prompts := [];
    var idx := 0;
    while idx < |items|
      invariant 0 <= idx <= |items|
      invariant prompts == ItemPrompts(id, items, idx)
    {
      prompts := prompts + [ItemPrompt(id, idx, items[idx])];
      idx := idx + 1;
    }
  }

  /** Prompt j is the prompt for item j. */
  lemma {:induction false} ItemPromptsIndex(id: int, items: seq<Item>, n: nat, j: nat)
    requires n <= |items| && j < n
    ensures ItemPrompts(id, items, n)[j] == ItemPrompt(id, j, items[j])
  {
    if j < n - 1 {
      ItemPromptsIndex(id, items, n - 1, j);
    }
  }

  /** Prompt j shows item j, and its buttons come back to the keep/remove handler as a
      decision on item j of this submission. */
  lemma ItemPromptsAt(id: int, items: seq<Item>, n: nat, j: nat)
    requires n <= |items| && j < n
    ensures ItemPrompts(id, items, n)[j] == ItemPrompt(id, j, items[j])
    ensures Published(ItemPrompts(id, items, n)[j])[0].fileId == items[j].fileId
    ensures ParseMark(ItemPrompts(id, items, n)[j].buttons[0]) == Some(Mark("keep", id, j))
    ensures ParseMark(ItemPrompts(id, items, n)[j].buttons[1]) == Some(Mark("remove", id, j))
  {
    ItemPromptsIndex(id, items, n, j);
  }
}
