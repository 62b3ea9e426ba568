/**
 * What the message handler keeps of an admitted message: the album key, the
 * item, and the pending row made of one message or of a whole album.
 */
module Intake {
  import opened Text
  import opened Media
  import opened Admission

  /** f"{chat_id}:{media_group_id}": the album buffer key of a message. */
  function AlbumKey(chatId: int, mediaGroupId: string): (key: string)
    ensures key != []
  {
    IntToString(chatId) + ":" + mediaGroupId
  }

  /** Two album messages share a buffer entry exactly when they come from the same
      chat and carry the same media_group_id. */
  lemma AlbumKeyInjective(c1: int, g1: string, c2: int, g2: string)
    ensures AlbumKey(c1, g1) == AlbumKey(c2, g2) <==> c1 == c2 && g1 == g2
  {
    IntToStringHasNo(c1, ':');
    IntToStringHasNo(c2, ':');
    SplitOnceAfter(IntToString(c1), g1, ':');
    SplitOnceAfter(IntToString(c2), g2, ':');
    IntToStringInjective(c1, c2);
  }

  /** username or full_name. */
  function DisplayName(m: Message): (name: string)
    ensures name == m.username || name == m.fullName
    ensures name == "" ==> m.username == "" && m.fullName == ""
    ensures m.username != "" ==> name == m.username
  {
    if m.username != "" then m.username else m.fullName
  }

  /** The message carries a photo or a video. */
  predicate HasMedia(m: Message) {
    m.photo != [] || m.video.Some?
  }

  /** The item of a message: its largest photo size when it has a photo, its video
      otherwise, with the sender, chat and caption of the message. */
  function ItemOf(m: Message): (it: Item)
    requires HasMedia(m)
    ensures it.kind == Photo <==> m.photo != []
    ensures it.fileId == if m.photo != [] then m.photo[|m.photo| - 1] else m.video.value
    ensures it.userId == m.userId && it.chatId == m.chatId && it.username == DisplayName(m) && it.caption == m.caption
  {
    if m.photo != [] then Item(m.photo[|m.photo| - 1], Photo, m.userId, m.chatId, DisplayName(m), m.caption)
    else Item(m.video.value, Video, m.userId, m.chatId, DisplayName(m), m.caption)
  }

  /** What every pending row satisfies: it holds at least one item; its sender, chat,
      name and caption are those of its first item; it is an album exactly when it has
      a group key; and a row that is not an album holds exactly one item. */
  predicate WellFormed(s: Submission) {
    s.items != [] &&
    s.chatId == s.items[0].chatId && s.userId == s.items[0].userId &&
    s.username == s.items[0].username && s.caption == s.items[0].caption &&
    (s.isAlbum <==> s.groupKey != "") &&
    (!s.isAlbum ==> |s.items| == 1)
  }

  /** The row saved for a single photo or video. */
  function SingleSubmission(m: Message): (s: Submission)
    requires HasMedia(m)
    ensures WellFormed(s) && !s.isAlbum && s.items == [ItemOf(m)]
  {
    Submission(m.chatId, m.userId, DisplayName(m), "", false, m.caption, [ItemOf(m)])
  }

  /** The row saved when an album is flushed: every buffered item, in arrival order,
      under the identity and caption of the first one. */
  function AlbumSubmission(key: string, items: seq<Item>): (s: Submission)
    requires items != [] && key != ""
    ensures WellFormed(s) && s.isAlbum && s.items == items && s.groupKey == key
  {
    Submission(items[0].chatId, items[0].userId, items[0].username, key, true, items[0].caption, items)
  }
}
