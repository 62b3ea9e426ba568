/**
 * Short runs of the bot from start-up, each checking a promise the handlers make
 * together rather than one at a time.
 */
module Scenarios {
  import opened Wrappers
  import opened Text
  import opened Callbacks
  import opened Selection
  import opened Media
  import opened Admission
  import opened Intake
  import opened Workflow
  import opened Pending
  import opened MediaBot

  /** Rows saved one after the other get ids 1 and 2, each reads back as saved, and a
      deleted row reads back as missing while the other stays. */
  method StoreRoundTrip(s: Submission, t: Submission) returns (a: int, b: int, readA: Option<Submission>, gone: Option<Submission>, readB: Option<Submission>)
    ensures a == 1 && b == 2
    ensures readA == Some(s) && gone == None && readB == Some(t)
  {
    var store := new PendingStore();
    a := store.Save(s);
    b := store.Save(t);
    readA := store.Get(a);
    store.Delete(a);
    gone := store.Get(a);
    readB := store.Get(b);
  }

  /** Two parts of one album from a member: the first creates the flush task, the
      second only joins the buffer, and the flush saves one row holding both items in
      arrival order, under the first part's sender and caption. */
  method AlbumBurst(group: int, a: Message, b: Message) returns (tasks: multiset<string>, r: Option<int>, s: Submission)
    requires !a.fromBot && !b.fromBot && a.chatId == group && b.chatId == group
    requires a.mediaGroupId != "" && b.mediaGroupId == a.mediaGroupId && HasMedia(a) && HasMedia(b)
    ensures tasks == multiset{AlbumKey(group, a.mediaGroupId)}
    ensures r == Some(1)
    ensures s.isAlbum && s.items == [ItemOf(a), ItemOf(b)]
    ensures s.userId == a.userId && s.username == DisplayName(a) && s.caption == a.caption
  {
    var bot := new Bot(IntToString(group), "");
    var key := AlbumKey(group, a.mediaGroupId);
    var first := bot.OnMessage(a);
    assert first == Buffered(key, 1);
    var second := bot.OnMessage(b);
    assert second == Buffered(key, 2);
    tasks := bot.armed;
    r := bot.Flush(key);
    s := bot.store.rows[1];
  }

  /** A second press of Approve all, or a press of Reject all, after the first
      approval went through, finds no row. */
  method ApproveTwice(group: int, m: Message) returns (first: Reply, second: Reply, reject: Reply)
    requires !m.fromBot && m.chatId == group && m.mediaGroupId == "" && HasMedia(m)
    ensures first == Approved && second == NotFound && reject == NotFound
  {
    var bot := new Bot(IntToString(group), "");
    var received := bot.OnMessage(m);
    assert received == Submitted(1);
    var data := ApprovalButtons(1)[0];
    ApprovalButtonsRoundTrip(1);
    first := bot.ApproveAll(data, Delivered);
    second := bot.ApproveAll(data, Delivered);
    reject := bot.RejectAll(ApprovalButtons(1)[1]);
  }

  /** When the repost fails the row stays, so the submission can still be rejected;
      once rejected, approving it finds nothing. */
  method RejectAfterFailedApprove(group: int, m: Message) returns (approve: Reply, reject: Reply, retry: Reply)
    requires !m.fromBot && m.chatId == group && m.mediaGroupId == "" && HasMedia(m)
    ensures approve == PublishFailed && reject == Rejected && retry == NotFound
  {
    var bot := new Bot(IntToString(group), "");
    var received := bot.OnMessage(m);
    assert received == Submitted(1);
    ApprovalButtonsRoundTrip(1);
    approve := bot.ApproveAll(ApprovalButtons(1)[0], MediaFailed);
    reject := bot.RejectAll(ApprovalButtons(1)[1]);
    retry := bot.ApproveAll(ApprovalButtons(1)[0], Delivered);
  }

  /** A fresh bot that has received and flushed a two-part album from a member. */
  method AlbumRow(group: int, a: Message, b: Message) returns (bot: Bot)
    requires !a.fromBot && !b.fromBot && a.chatId == group && b.chatId == group
    requires a.mediaGroupId != "" && b.mediaGroupId == a.mediaGroupId && HasMedia(a) && HasMedia(b)
    ensures fresh(bot) && fresh(bot.store) && bot.Valid()
    ensures bot.store.rows == map[1 := AlbumSubmission(AlbumKey(group, a.mediaGroupId), [ItemOf(a), ItemOf(b)])]
    ensures bot.selection == map[]
  {
    bot := new Bot(IntToString(group), "");
    var key := AlbumKey(group, a.mediaGroupId);
    var first := bot.OnMessage(a);
    assert first == Buffered(key, 1);
    var second := bot.OnMessage(b);
    assert second == Buffered(key, 2);
    assert bot.buffer[key] == [ItemOf(a), ItemOf(b)];
    assert bot.store.rows == map[] && bot.store.nextId == 1;
    var r := bot.Flush(key);
    assert r == Some(1);
  }

  /** The album row after Selective. */
  method StartedAlbum(group: int, a: Message, b: Message) returns (bot: Bot)
    requires !a.fromBot && !b.fromBot && a.chatId == group && b.chatId == group
    requires a.mediaGroupId != "" && b.mediaGroupId == a.mediaGroupId && HasMedia(a) && HasMedia(b)
    ensures fresh(bot) && fresh(bot.store) && bot.Valid()
    ensures bot.store.rows == map[1 := AlbumSubmission(AlbumKey(group, a.mediaGroupId), [ItemOf(a), ItemOf(b)])]
    ensures bot.selection == map[1 := map[]]
  {
    bot := AlbumRow(group, a, b);
    ApprovalButtonsRoundTrip(1);
    var started := bot.Selective(ApprovalButtons(1)[2]);
  }

  /** The album row after Selective, Keep on its first item and Remove on its second. */
  method ReviewedAlbum(group: int, a: Message, b: Message) returns (bot: Bot)
    requires !a.fromBot && !b.fromBot && a.chatId == group && b.chatId == group
    requires a.mediaGroupId != "" && b.mediaGroupId == a.mediaGroupId && HasMedia(a) && HasMedia(b)
    ensures fresh(bot) && fresh(bot.store) && bot.Valid()
    ensures bot.store.rows == map[1 := AlbumSubmission(AlbumKey(group, a.mediaGroupId), [ItemOf(a), ItemOf(b)])]
    ensures bot.selection == map[1 := map[0 := true, 1 := false]]
  {
    bot := StartedAlbum(group, a, b);
    var kept := bot.KeepRemove(KeepRemoveButtons(1, 0)[0]);
    var removed := bot.KeepRemove(KeepRemoveButtons(1, 1)[1]);
    KeepThenRemove();
  }

  /** Selective review of a two-part album: Selective, Keep on the first item, Remove
      on the second, then Finalize, each pressed with the callback data of its button,
      posts the first item alone to the main group, under the album's caption. */
  method SelectiveRound(group: int, a: Message, b: Message) returns (finalize: Reply, published: seq<InputMedia>)
    requires !a.fromBot && !b.fromBot && a.chatId == group && b.chatId == group
    requires a.mediaGroupId != "" && b.mediaGroupId == a.mediaGroupId && HasMedia(a) && HasMedia(b)
    ensures finalize == SelectionPosted
    ensures published == Arrange([ItemOf(a)], a.caption)
  {
    var bot := ReviewedAlbum(group, a, b);
    KeepFirstOfTwo(ItemOf(a), ItemOf(b));
    FinalizeButtonsRoundTrip(1);
    finalize := bot.Finalize(FinalizeButtons(1)[0], Delivered);
    published := Published(bot.posts[|bot.posts| - 2]);
  }

  /** Keep on index 0 and Remove on index 1 keep the first of two items. */
  lemma KeepFirstOfTwo<T>(x: T, y: T)
    ensures Kept([x, y], map[0 := true, 1 := false]) == [x]
  {
    assert [x, y][..1] == [x];
  }

  /** Keep on item 0, then Remove on item 1, of a review that has just started. */
  lemma KeepThenRemove()
    ensures Decide(Decide(map[1 := map[]], 1, 0, true), 1, 1, false) == map[1 := map[0 := true, 1 := false]]
  {
    assert Decide(map[1 := map[]], 1, 0, true) == map[1 := map[0 := true]];
  }
}
