/**
 * The requests the approval handlers send and the replies they give, as values.
 */
module Workflow {
  import opened Wrappers
  import opened Callbacks
  import opened Selection
  import opened Media

  /** How far a repost to the main group got: the media failed, the media went out
      and the attribution failed, or both went out. */
  datatype Delivery = Delivered | MediaFailed | AttributionFailed

  /** The answer a callback handler gives, without its wording. Raised: the lookup of
      the row raised before any reply, so the press gets none. */
  datatype Reply =
    | InvalidRequest
    | NotFound
    | Raised
    | PublishFailed
    | Approved
    | Rejected
    | SentForSelection
    | Marked(keep: bool)
    | NothingApproved
    | SelectionPosted

  /** What forward_to_approval_group sends for a row: its media, then the control
      message carrying the row's three buttons. */
  function ForwardPosts(id: int, s: Submission): (ps: seq<Post>)
    requires s.items != []
    ensures |ps| == 2 && ps[0].target == ApprovalGroup && Published(ps[0]) == Arrange(s.items, s.caption)
    ensures ps[0].Batch? <==> |s.items| > 1
    ensures ps[1] == Text(ApprovalGroup, NewSubmission(s.username, id), ApprovalButtons(id))
  {
    [Publish(ApprovalGroup, Arrange(s.items, s.caption)), Text(ApprovalGroup, NewSubmission(s.username, id), ApprovalButtons(id))]
  }

  /** The requests of a repost to the main group: the media, then, unless the media
      failed, the attribution. */
  function RepostPosts(media: seq<InputMedia>, username: string, outcome: Delivery): (ps: seq<Post>)
    requires media != []
    ensures |ps| == (if outcome == MediaFailed then 1 else 2)
    ensures ps[0].target == MainGroup && Published(ps[0]) == media
    ensures ps[0].Batch? <==> |media| > 1
    ensures outcome != MediaFailed ==> ps[1] == Text(MainGroup, Attribution(username), [])
  {
    [Publish(MainGroup, media)] + if outcome == MediaFailed then [] else [Text(MainGroup, Attribution(username), [])]
  }

  /** Finalize publishes exactly the items whose index is kept, in their original
      order, with the caption on the first of them and nowhere else. */
  lemma FinalizeMedia(items: seq<Item>, sel: Decisions, caption: string)
    requires Kept(items, sel) != []
    ensures var media := Arrange(Kept(items, sel), caption);
            var idx := KeptIndices(|items|, sel);
            |media| == |idx| &&
            (forall j :: 0 <= j < |media| ==> media[j].fileId == items[idx[j]].fileId && media[j].kind == items[idx[j]].kind) &&
            (forall i :: i in idx <==> 0 <= i < |items| && Keep(sel, i)) &&
            (forall j, k :: 0 <= j < k < |idx| ==> idx[j] < idx[k]) &&
            CaptionOf(media) == caption &&
            (forall j :: 1 <= j < |media| ==> media[j].caption == None)
  {
    KeptIsSelection(items, sel);
    KeptIndicesSpec(|items|, sel);
    ArrangeRoundTrip(Kept(items, sel), caption);
  }

  /** When nothing was marked Remove, finalize publishes what approve-all would. */
  lemma FinalizeWithoutRemovalsIsApproveAll(items: seq<Item>, sel: Decisions, caption: string)
    requires forall i :: 0 <= i < |items| ==> Keep(sel, i)
    ensures Arrange(Kept(items, sel), caption) == Arrange(items, caption)
  {
    KeptAllWhenNoneRemoved(items, sel);
  }

  /** Finalize publishes nothing exactly when every item was marked Remove. */
  lemma FinalizeNothingIffAllRemoved(items: seq<Item>, sel: Decisions)
    ensures Plain(Kept(items, sel)) == [] <==> forall i :: 0 <= i < |items| ==> i in sel && !sel[i]
  {
    KeptEmptyIffAllRemoved(items, sel);
  }
}
