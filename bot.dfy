/**
 * The bot itself: the album buffer with its pending flush tasks, the pending table,
 * the selection store, and the log of requests made to the chat service, with one
 * method per handler.
 */
module MediaBot {
  import opened Wrappers
  import opened Text
  import opened Callbacks
  import opened Selection
  import opened Media
  import opened Pending
  import opened Admission
  import opened Intake
  import opened Workflow

  /** What the message handler did with a message. */
  datatype Received =
    | Ignored
    | Unsupported(key: string)
    | Buffered(key: string, size: nat)
    | Submitted(id: int)

  /** A key has exactly one flush task waiting exactly when its buffer holds items. */
  ghost predicate ArmedFor(buffer: map<string, seq<Item>>, armed: multiset<string>) {
    forall key :: armed[key] == if key in buffer && buffer[key] != [] then 1 else 0
  }

  /** Appending a part to a key's buffer arms the key exactly when the buffer was empty. */
  lemma AppendArms(buffer: map<string, seq<Item>>, armed: multiset<string>, key: string, prior: seq<Item>, it: Item)
    requires ArmedFor(buffer, armed)
    requires prior == if key in buffer then buffer[key] else []
    ensures ArmedFor(buffer[key := prior + [it]], if prior == [] then armed + multiset{key} else armed)
  {
  }

  /** setdefault leaves the arming unchanged. */
  lemma DefaultKeepsArming(buffer: map<string, seq<Item>>, armed: multiset<string>, key: string, prior: seq<Item>)
    requires ArmedFor(buffer, armed)
    requires prior == if key in buffer then buffer[key] else []
    ensures ArmedFor(buffer[key := prior], armed)
  {
  }

  /** Popping a key drops its flush task. */
  lemma PopDisarms(buffer: map<string, seq<Item>>, armed: multiset<string>, key: string)
    requires ArmedFor(buffer, armed)
    ensures ArmedFor(buffer - {key}, armed - multiset{key})
  {
  }

  /** Everything the handlers change, in one value. */
  datatype BotState = BotState(rows: map<int, Submission>, nextId: int, buffer: map<string, seq<Item>>,
                               armed: multiset<string>, selection: SelectionStore, posts: seq<Post>)

  class Bot {
    /** MAIN_GROUP_ID, as the configured text. */
    const mainGroup: string
    /** ADMIN_IDS. */
    const admins: set<int>
    const store: PendingStore
    /** media_buffer: album key to the items received so far, in arrival order. */
    var buffer: map<string, seq<Item>>
    /** The keys of the flush tasks created and not yet run. */
    var armed: multiset<string>
    /** selection_store. */
    var selection: SelectionStore
    /** Every request made to the chat service, in order, delivered or not. */
    var posts: seq<Post>

    ghost function Snapshot(): BotState
      reads this, store
    {
      BotState(store.rows, store.nextId, buffer, armed, selection, posts)
    }

    /** An item that came from a sender who is no admin. */
    predicate FromMember(it: Item) {
      !IsAdmin(admins, it.userId)
    }

    predicate AllFromMembers(items: seq<Item>) {
      forall i :: 0 <= i < |items| ==> FromMember(items[i])
    }

    /** Every pending row is well formed; everything withheld came from a member; and
        a key has exactly one flush task waiting exactly when its buffer holds items. */
    ghost predicate Valid()
      reads this, store
    {
      store.Valid() &&
      (forall id :: id in store.rows ==> WellFormed(store.rows[id]) && AllFromMembers(store.rows[id].items)) &&
      (forall key :: key in buffer ==> key != "" && AllFromMembers(buffer[key])) &&
      ArmedFor(buffer, armed)
    }

    /** Start-up: the configuration read and ADMIN_IDS parsed, every store empty. */
    constructor (mainGroupId: string, adminIdsRaw: string)
      ensures Valid() && fresh(store)
      ensures mainGroup == mainGroupId && admins == AdminIds(adminIdsRaw)
      ensures Snapshot() == BotState(map[], 1, map[], multiset{}, map[], [])
    {
      mainGroup := mainGroupId;
      var ids := ParseAdminIds(adminIdsRaw);
      admins := ids;
      store := new PendingStore();
      buffer := map[];
      armed := multiset{};
      selection := map[];
      posts := [];
    }

    /** forward_to_approval_group: the row's media, then the control message with its
        three buttons; a failed send changes nothing, so both are always attempted. */
    method Forward(id: int)
      requires Valid()
      modifies this
      ensures Valid()
      ensures Snapshot() == old(Snapshot()).(posts := old(posts) + if id in store.rows then ForwardPosts(id, store.rows[id]) else [])
    {
      var pending := store.Get(id);
      if pending.None? {
        return;
      }
      var s := pending.value;
      var media := BuildMedia(s.items, s.caption);
      posts := posts + [Publish(ApprovalGroup, media), Text(ApprovalGroup, NewSubmission(s.username, id), ApprovalButtons(id))];
    }

    /** on_message_handler: bots, other chats and admins are ignored; everything else
        goes on to Receive. */
    method OnMessage(m: Message) returns (r: Received)
      requires Valid()
      modifies this, store
      ensures Valid()
      ensures !Admitted(m, mainGroup, admins) ==> r == Ignored && Snapshot() == old(Snapshot())
      ensures Admitted(m, mainGroup, admins) ==> ReceiveSpec(m, r)
    {
      if m.fromBot {
        return Ignored;
      }
      if IntToString(m.chatId) != mainGroup {
        return Ignored;
      }
      if IsAdmin(admins, m.userId) {
        return Ignored;
      }
      r := Receive(m);
    }

    /** What the message handler does with an admitted message: an album part goes to
        the album buffer, a single photo or video becomes a row at once, anything else
        is ignored. */
    twostate predicate ReceiveSpec(m: Message, r: Received)
      reads this, store
    {
      if m.mediaGroupId != "" then AlbumPartSpec(m, r)
      else if HasMedia(m) then SingleSpec(m, r)
      else r == Ignored && Snapshot() == old(Snapshot())
    }

    /** An album part is appended to its key's buffer, which is created even for a part
        that is neither photo nor video; a flush task is created exactly when the buffer
        goes from no items to one. */
    twostate predicate AlbumPartSpec(m: Message, r: Received)
      reads this, store
    {
      var key := AlbumKey(m.chatId, m.mediaGroupId);
      var prior := if key in old(buffer) then old(buffer)[key] else [];
      if HasMedia(m) then
        r == Buffered(key, |prior| + 1) &&
        Snapshot() == old(Snapshot()).(buffer := old(buffer)[key := prior + [ItemOf(m)]],
                                       armed := if prior == [] then old(armed) + multiset{key} else old(armed))
      else
        r == Unsupported(key) && Snapshot() == old(Snapshot()).(buffer := old(buffer)[key := prior])
    }

    /** A single photo or video is saved as a row under the next id and forwarded. */
    twostate predicate SingleSpec(m: Message, r: Received)
      reads this, store
      requires HasMedia(m)
    {
      r == Submitted(old(store.nextId)) &&
      Snapshot() == old(Snapshot()).(rows := old(store.rows)[r.id := SingleSubmission(m)], nextId := r.id + 1,
                                     posts := old(posts) + ForwardPosts(r.id, SingleSubmission(m)))
    }

    /** The album and single-media branches of on_message_handler. */
    method Receive(m: Message) returns (r: Received)
      requires Valid() && !IsAdmin(admins, m.userId)
      modifies this, store
      ensures Valid()
      ensures ReceiveSpec(m, r)
    {
      if m.mediaGroupId != "" {
        r := BufferAlbumPart(m);
      } else if HasMedia(m) {
        r := SubmitSingle(m);
      } else {
        r := Ignored;
      }
    }

    /** The album branch: setdefault, then append the part when it is a photo or a
        video, and create the flush task when the list has just reached one item. */
    method BufferAlbumPart(m: Message) returns (r: Received)
      requires Valid() && !IsAdmin(admins, m.userId) && m.mediaGroupId != ""
      modifies this
      ensures Valid()
      ensures AlbumPartSpec(m, r)
    {
      var key := AlbumKey(m.chatId, m.mediaGroupId);
      var arr := if key in buffer then buffer[key] else [];
      if !HasMedia(m) {
        DefaultKeepsArming(buffer, armed, key, arr);
        buffer := buffer[key := arr];
        return Unsupported(key);
      }
      r := AppendPart(key, ItemOf(m));
    }

    /** Appends an item to its key's buffer, creating the flush task when the buffer
        held no items before. */
    method AppendPart(key: string, it: Item) returns (r: Received)
      requires Valid() && key != "" && FromMember(it)
      modifies this
      ensures Valid()
      ensures var prior := if key in old(buffer) then old(buffer)[key] else [];
              r == Buffered(key, |prior| + 1) &&
              Snapshot() == old(Snapshot()).(buffer := old(buffer)[key := prior + [it]],
                                             armed := if prior == [] then old(armed) + multiset{key} else old(armed))
    {
      var arr := if key in buffer then buffer[key] else [];
      AppendArms(buffer, armed, key, arr, it);
      var first := arr == [];
      arr := arr + [it];
      buffer := buffer[key := arr];
      if first {
        armed := armed + multiset{key};
      }
      return Buffered(key, |arr|);
    }

    /** The single-media branch: save the row, then forward it. */
    method SubmitSingle(m: Message) returns (r: Received)
      requires Valid() && !IsAdmin(admins, m.userId) && HasMedia(m)
      modifies this, store
      ensures Valid()
      ensures SingleSpec(m, r)
    {
      var id := store.Save(SingleSubmission(m));
      Forward(id);
      return Submitted(id);
    }

    /** The body of schedule_media_group_flush after its sleep: the key's items are
        popped and, when there are any, saved as one album row and forwarded. */
    method Flush(key: string) returns (r: Option<int>)
      requires Valid()
      modifies this, store
      ensures Valid()
      ensures var items := if key in old(buffer) then old(buffer)[key] else [];
              if items == [] then
                r == None &&
                Snapshot() == old(Snapshot()).(buffer := old(buffer) - {key}, armed := old(armed) - multiset{key})
              else
                r == Some(old(store.nextId)) &&
                Snapshot() == old(Snapshot()).(rows := old(store.rows)[r.value := AlbumSubmission(key, items)],
                                               nextId := r.value + 1,
                                               buffer := old(buffer) - {key}, armed := old(armed) - multiset{key},
                                               posts := old(posts) + ForwardPosts(r.value, AlbumSubmission(key, items)))
    {
      var items := if key in buffer then buffer[key] else [];
      PopDisarms(buffer, armed, key);
      buffer := buffer - {key};
      armed := armed - multiset{key};
      if items == [] {
        return None;
      }
      var id := store.Save(AlbumSubmission(key, items));
      Forward(id);
      return Some(id);
    }

    /** The try-block shared by cb_approve_all and cb_finalize: the media go to the main
        group, then the attribution; the first failure ends the block. */
    method Repost(media: seq<InputMedia>, username: string, outcome: Delivery) returns (delivered: bool)
      requires Valid() && media != []
      modifies this
      ensures Valid()
      ensures delivered <==> outcome == Delivered
      ensures Snapshot() == old(Snapshot()).(posts := old(posts) + RepostPosts(media, username, outcome))
    {
      posts := posts + [Publish(MainGroup, media)];
      if outcome != MediaFailed {
        posts := posts + [Text(MainGroup, Attribution(username), [])];
      }
      delivered := outcome == Delivered;
    }

    /** cb_approve_all once the id is parsed: an id the database cannot bind raises and
        an unknown id is stale, and neither changes anything; otherwise
        the row's media and the attribution go to the main group, and the row is
        deleted only when both went out. */
    twostate predicate ApproveAllSpec(id: int, outcome: Delivery, r: Reply)
      reads this, store
      requires old(Valid())
    {
      if !SqlInteger(id) then
        r == Raised && Snapshot() == old(Snapshot())
      else if id !in old(store.rows) then
        r == NotFound && Snapshot() == old(Snapshot())
      else
        var s := old(store.rows)[id];
        var sent := old(posts) + RepostPosts(Arrange(s.items, s.caption), s.username, outcome);
        if outcome == Delivered then
          r == Approved && Snapshot() == old(Snapshot()).(rows := old(store.rows) - {id}, posts := sent)
        else
          r == PublishFailed && Snapshot() == old(Snapshot()).(posts := sent)
    }

    /** cb_approve_all: data that does not hold an id after its first colon is an
        invalid request and changes nothing. */
    method ApproveAll(data: string, outcome: Delivery) returns (r: Reply)
      requires Valid()
      modifies this, store
      ensures Valid()
      ensures CallbackId(data).None? ==> r == InvalidRequest && Snapshot() == old(Snapshot())
      ensures CallbackId(data).Some? ==> ApproveAllSpec(CallbackId(data).value, outcome, r)
    {
      var pid := CallbackId(data);
      if pid.None? {
        return InvalidRequest;
      }
      r := ApproveRow(pid.value, outcome);
    }

    method ApproveRow(id: int, outcome: Delivery) returns (r: Reply)
      requires Valid()
      modifies this, store
      ensures Valid()
      ensures ApproveAllSpec(id, outcome, r)
    {
      if !SqlInteger(id) {
        return Raised;
      }
      var pending := store.Get(id);
      if pending.None? {
        return NotFound;
      }
      var s := pending.value;
      var media := BuildMedia(s.items, s.caption);
      var delivered := Repost(media, s.username, outcome);
      if !delivered {
        return PublishFailed;
      }
      store.Delete(id);
      return Approved;
    }

    /** cb_reject_all once the id is parsed: an id the database cannot bind raises and
        an unknown id is stale, and neither changes anything; otherwise the
        rejection notice is attempted and the row is deleted whether or not the notice
        went out. */
    twostate predicate RejectAllSpec(id: int, r: Reply)
      reads this, store
    {
      if !SqlInteger(id) then
        r == Raised && Snapshot() == old(Snapshot())
      else if id !in old(store.rows) then
        r == NotFound && Snapshot() == old(Snapshot())
      else
        r == Rejected &&
        Snapshot() == old(Snapshot()).(rows := old(store.rows) - {id},
                                       posts := old(posts) + [Text(MainGroup, RejectionNotice(old(store.rows)[id].username), [])])
    }

    /** cb_reject_all. */
    method RejectAll(data: string) returns (r: Reply)
      requires Valid()
      modifies this, store
      ensures Valid()
      ensures CallbackId(data).None? ==> r == InvalidRequest && Snapshot() == old(Snapshot())
      ensures CallbackId(data).Some? ==> RejectAllSpec(CallbackId(data).value, r)
    {
      var pid := CallbackId(data);
      if pid.None? {
        return InvalidRequest;
      }
      r := RejectRow(pid.value);
    }

    method RejectRow(id: int) returns (r: Reply)
      requires Valid()
      modifies this, store
      ensures Valid()
      ensures RejectAllSpec(id, r)
    {
      if !SqlInteger(id) {
        return Raised;
      }
      var pending := store.Get(id);
      if pending.None? {
        return NotFound;
      }
      posts := posts + [Text(MainGroup, RejectionNotice(pending.value.username), [])];
      store.Delete(id);
      return Rejected;
    }

    /** cb_selective once the id is parsed: an id the database cannot bind raises and
        an unknown id is stale, and neither changes anything; otherwise the
        row's decisions start over from none, and every item is sent to the approval
        group, labelled, with its Keep and Remove buttons. */
    twostate predicate SelectiveSpec(id: int, r: Reply)
      reads this, store
    {
      if !SqlInteger(id) then
        r == Raised && Snapshot() == old(Snapshot())
      else if id !in old(store.rows) then
        r == NotFound && Snapshot() == old(Snapshot())
      else
        var items := old(store.rows)[id].items;
        r == SentForSelection &&
        Snapshot() == old(Snapshot()).(selection := old(selection)[id := map[]],
                                       posts := old(posts) + ItemPrompts(id, items, |items|))
    }

    /** cb_selective. */
    method Selective(data: string) returns (r: Reply)
      requires Valid()
      modifies this
      ensures Valid()
      ensures CallbackId(data).None? ==> r == InvalidRequest && Snapshot() == old(Snapshot())
      ensures CallbackId(data).Some? ==> SelectiveSpec(CallbackId(data).value, r)
    {
      var pid := CallbackId(data);
      if pid.None? {
        return InvalidRequest;
      }
      r := StartSelection(pid.value);
    }

    method StartSelection(id: int) returns (r: Reply)
      requires Valid()
      modifies this
      ensures Valid()
      ensures SelectiveSpec(id, r)
    {
      if !SqlInteger(id) {
        return Raised;
      }
      var pending := store.Get(id);
      if pending.None? {
        return NotFound;
      }
      var items := pending.value.items;
      selection := selection[id := map[]];
      var prompts := SelectionPrompts(id, items);
      posts := posts + prompts;
      return SentForSelection;
    }

    /** cb_keep_remove once the data is parsed: the decision is recorded on that index,
        even for an id with no row; when the row exists and the number of recorded
        decisions equals its item count, the finalize button is sent. An id the database
        cannot bind makes the lookup raise after the decision is recorded and answered. */
    twostate predicate KeepRemoveSpec(id: int, index: int, keep: bool, r: Reply)
      reads this, store
    {
      var sel := Decide(old(selection), id, index, keep);
      var done := SqlInteger(id) && id in old(store.rows) && IsComplete(sel[id], |old(store.rows)[id].items|);
      r == Marked(keep) &&
      Snapshot() == old(Snapshot()).(selection := sel,
                                     posts := old(posts) + if done then [Text(ApprovalGroup, AllReviewed(id), FinalizeButtons(id))] else [])
    }

    /** cb_keep_remove: data must split on ":" into exactly three parts whose last two
        are integers; the action "keep" keeps, any other removes. */
    method KeepRemove(data: string) returns (r: Reply)
      requires Valid()
      modifies this
      ensures Valid()
      ensures ParseMark(data).None? ==> r == InvalidRequest && Snapshot() == old(Snapshot())
      ensures ParseMark(data).Some? ==>
                KeepRemoveSpec(ParseMark(data).value.id, ParseMark(data).value.index, ParseMark(data).value.action == "keep", r)
    {
      var parsed := ParseMark(data);
      if parsed.None? {
        return InvalidRequest;
      }
      var Mark(action, id, index) := parsed.value;
      if action == "keep" {
        r := MarkItem(id, index, true);
      } else {
        r := MarkItem(id, index, false);
      }
    }

    method MarkItem(id: int, index: int, keep: bool) returns (r: Reply)
      requires Valid()
      modifies this
      ensures Valid()
      ensures KeepRemoveSpec(id, index, keep, r)
    {
      selection := Decide(selection, id, index, keep);
      OfferFinalize(id);
      return Marked(keep);
    }

    /** The tail of cb_keep_remove: the finalize button is sent when the row exists and
        its recorded decisions are as many as its items; the lookup raises for an id the
        database cannot bind. */
    method OfferFinalize(id: int)
      requires Valid() && id in selection
      modifies this
      ensures Valid()
      ensures Snapshot() == old(Snapshot()).(posts := old(posts) +
                if SqlInteger(id) && id in store.rows && IsComplete(DecisionsOf(selection, id), |store.rows[id].items|)
                then [Text(ApprovalGroup, AllReviewed(id), FinalizeButtons(id))] else [])
    {
      if !SqlInteger(id) {
        return;
      }
      var pending := store.Get(id);
      if pending.Some? && |selection[id]| == |pending.value.items| {
        posts := posts + [Text(ApprovalGroup, AllReviewed(id), FinalizeButtons(id))];
      }
    }

    /** delete_pending followed by selection_store.pop. */
    method DropRow(id: int)
      requires Valid()
      modifies this, store
      ensures Valid()
      ensures Snapshot() == old(Snapshot()).(rows := old(store.rows) - {id}, selection := old(selection) - {id})
    {
      store.Delete(id);
      selection := selection - {id};
    }

    /** cb_finalize once the id is parsed: an id the database cannot bind raises and
        an unknown id is stale, and neither changes anything; otherwise the
        kept items are reposted, in order, with the row's caption on the first; with
        none kept the row and its decisions are dropped and nothing is sent; otherwise
        both are dropped only when the repost fully went out. */
    twostate predicate FinalizeSpec(id: int, outcome: Delivery, r: Reply)
      reads this, store
    {
      if !SqlInteger(id) then
        r == Raised && Snapshot() == old(Snapshot())
      else if id !in old(store.rows) then
        r == NotFound && Snapshot() == old(Snapshot())
      else
        var s := old(store.rows)[id];
        var kept := Kept(s.items, DecisionsOf(old(selection), id));
        if kept == [] then
          r == NothingApproved &&
          Snapshot() == old(Snapshot()).(rows := old(store.rows) - {id}, selection := old(selection) - {id})
        else
          var sent := old(posts) + RepostPosts(Arrange(kept, s.caption), s.username, outcome);
          if outcome == Delivered then
            r == SelectionPosted &&
            Snapshot() == old(Snapshot()).(rows := old(store.rows) - {id}, selection := old(selection) - {id}, posts := sent)
          else
            r == PublishFailed && Snapshot() == old(Snapshot()).(posts := sent)
    }

    /** cb_finalize. */
    method Finalize(data: string, outcome: Delivery) returns (r: Reply)
      requires Valid()
      modifies this, store
      ensures Valid()
      ensures CallbackId(data).None? ==> r == InvalidRequest && Snapshot() == old(Snapshot())
      ensures CallbackId(data).Some? ==> FinalizeSpec(CallbackId(data).value, outcome, r)
    {
      var pid := CallbackId(data);
      if pid.None? {
        return InvalidRequest;
      }
      r := FinalizeRow(pid.value, outcome);
    }

    method FinalizeRow(id: int, outcome: Delivery) returns (r: Reply)
      requires Valid()
      modifies this, store
      ensures Valid()
      ensures FinalizeSpec(id, outcome, r)
    {
      if !SqlInteger(id) {
        return Raised;
      }
      var pending := store.Get(id);
      if pending.None? {
        return NotFound;
      }
      var s := pending.value;
      var approved := FinalizedMedia(s.items, DecisionsOf(selection, id), s.caption);
      if approved == [] {
        DropRow(id);
        return NothingApproved;
      }
      var delivered := Repost(approved, s.username, outcome);
      if !delivered {
        return PublishFailed;
      }
      DropRow(id);
      return SelectionPosted;
    }
  }
}
