/**
 * The callback_data strings carried by the inline buttons, how the dispatcher
 * routes them to a handler by prefix, and how the handlers parse them.
 */
module Callbacks {
  import opened Wrappers
  import opened Text

  predicate StartsWith(s: string, prefix: string) {
    |prefix| <= |s| && s[..|prefix|] == prefix
  }

  /** The three buttons under a new submission in the approval group. */
  function ApprovalButtons(id: int): (r: seq<string>)
    ensures |r| == 3
    ensures HandlerFor(r[0]) == ApproveAllHandler && HandlerFor(r[1]) == RejectAllHandler && HandlerFor(r[2]) == SelectiveHandler
  {
    var n := IntToString(id);
    StartsWithConcat("approve_all:", n);
    StartsWithConcat("reject_all:", n);
    StartsWithConcat("selective:", n);
    ["approve_all:" + n, "reject_all:" + n, "selective:" + n]
  }

  /** f"{action}:{pending_id}:{idx}" */
  function MarkData(action: string, id: int, index: int): (r: string)
    ensures ':' !in action ==> ParseMark(r) == Some(Mark(action, id, index))
  {
    var n, k := IntToString(id), IntToString(index);
    IntToStringRoundTrip(id);
    IntToStringRoundTrip(index);
    IntToStringHasNo(id, ':');
    IntToStringHasNo(index, ':');
    if ':' !in action then
      ParseMarkOf(action, n, k);
      action + ":" + n + ":" + k
    else
      action + ":" + n + ":" + k
  }

  /** The Keep and Remove buttons under item number index of a submission. */
  function KeepRemoveButtons(id: int, index: int): (r: seq<string>)
    ensures |r| == 2
    ensures HandlerFor(r[0]) == KeepRemoveHandler && HandlerFor(r[1]) == KeepRemoveHandler
    ensures ParseMark(r[0]) == Some(Mark("keep", id, index)) && ParseMark(r[1]) == Some(Mark("remove", id, index))
  {
    MarkDataRoute("keep", id, index);
    MarkDataRoute("remove", id, index);
    NoColonInActions();
    [MarkData("keep", id, index), MarkData("remove", id, index)]
  }

  /** The single button offered once every item has a decision. */
  function FinalizeButtons(id: int): (r: seq<string>)
    ensures |r| == 1 && HandlerFor(r[0]) == FinalizeHandler
  {
    StartsWithConcat("finalize:", IntToString(id));
    ["finalize:" + IntToString(id)]
  }

  /** The callback handlers, in the order they are registered with the dispatcher. */
  datatype Handler = ApproveAllHandler | RejectAllHandler | SelectiveHandler | KeepRemoveHandler | FinalizeHandler | NoHandler

  /** The first registered handler whose filter accepts the callback data. */
  function HandlerFor(data: string): (h: Handler)
    ensures h == ApproveAllHandler <==> StartsWith(data, "approve_all:")
    ensures h == RejectAllHandler <==> StartsWith(data, "reject_all:")
    ensures h == SelectiveHandler <==> StartsWith(data, "selective:")
    ensures h == KeepRemoveHandler <==> StartsWith(data, "keep:") || StartsWith(data, "remove:")
    ensures h == FinalizeHandler <==> StartsWith(data, "finalize:")
    ensures h != NoHandler ==> ':' in data
  {
    PrefixesExclusive(data);
    if StartsWith(data, "approve_all:") then ApproveAllHandler
    else if StartsWith(data, "reject_all:") then RejectAllHandler
    else if StartsWith(data, "selective:") then SelectiveHandler
    else if StartsWith(data, "keep:") || StartsWith(data, "remove:") then KeepRemoveHandler
    else if StartsWith(data, "finalize:") then FinalizeHandler
    else NoHandler
  }

  /** int(data.split(":", 1)[1]); None where Python raises (no colon, or no integer after it). */
  function CallbackId(data: string): (r: Option<int>)
    ensures r.Some? ==> ':' in data
  {
    var parts := SplitOnce(data, ':');
    if |parts| < 2 then None else PyInt(parts[1])
  }

  /** A keep/remove decision as parsed from "action:id:index". */
  datatype Mark = Mark(action: string, id: int, index: int)

  /** data.split(":") must give exactly three parts whose last two are integers. */
  function ParseMark(data: string): (r: Option<Mark>)
    ensures r.Some? ==> ':' in data && ':' !in r.value.action
    ensures r.Some? ==> |Split(data, ':')| == 3
    ensures r.Some? ==> exists a, b :: data == r.value.action + ":" + a + ":" + b && ':' !in a && ':' !in b &&
                                       PyInt(a) == Some(r.value.id) && PyInt(b) == Some(r.value.index)
  {
    var parts := Split(data, ':');
    assert ':' !in data ==> |parts| == 1 by {
      if ':' !in data {
        SplitNoSeparator(data, ':');
      }
    }
    assert parts[0] in parts;
    if |parts| != 3 then None
    else
      ThreeParts(data, ':');
      match (PyInt(parts[1]), PyInt(parts[2]))
      case (Some(id), Some(index)) => Some(Mark(parts[0], id, index))
      case _ => None
  }

  /** A string that splits into three pieces is those pieces joined by the separator. */
  lemma ThreeParts(data: string, sep: char)
    requires |Split(data, sep)| == 3
    ensures var p := Split(data, sep);
            data == p[0] + [sep] + p[1] + [sep] + p[2] && sep !in p[0] && sep !in p[1] && sep !in p[2]
  {
    var p := Split(data, sep);
    JoinSplit(data, sep);
    assert p[1..][1..] == [p[2]];
    assert Join(p[1..], sep) == p[1] + [sep] + p[2];
    assert data == p[0] + [sep] + (p[1] + [sep] + p[2]);
    assert p[0] in p && p[1] in p && p[2] in p;
  }

  /** The id parsed from "prefix:rest" is int(rest), whatever the prefix, provided
      the prefix holds no colon; in particular a rest with a colon in it is invalid. */
  lemma CallbackIdAfterPrefix(prefix: string, rest: string)
    requires ':' !in prefix
    ensures CallbackId(prefix + ":" + rest) == PyInt(rest)
    ensures ':' in rest ==> CallbackId(prefix + ":" + rest) == None
  {
    SplitOnceAfter(prefix, rest, ':');
    if ':' in rest {
      var t := Strip(rest);
      if ParseDecimal(t).Some? {
        var i :| 0 <= i < |rest| && rest[i] == ':';
        assert |t| <= |rest|;
        StripKeepsInner(rest, i);
      }
    }
  }

  /** A non-space character of s survives in Strip(s). */
  lemma StripKeepsInner(s: string, i: int)
    requires 0 <= i < |s| && !IsSpace(s[i])
    ensures s[i] in Strip(s)
  {
    var l := StripLeft(s);
    assert i >= |s| - |l|;
    assert l[i - (|s| - |l|)] == s[i];
    var r := StripRight(l);
    assert i - (|s| - |l|) < |r|;
    assert r[i - (|s| - |l|)] == s[i];
  }

  /** "action:a:b" with colon-free parts splits into exactly those three parts. */
  lemma ParseMarkOf(action: string, a: string, b: string)
    requires ':' !in action && ':' !in a && ':' !in b
    ensures ParseMark(action + ":" + a + ":" + b) ==
              if PyInt(a).Some? && PyInt(b).Some? then Some(Mark(action, PyInt(a).value, PyInt(b).value)) else None
  {
    SplitNoSeparator(b, ':');
    SplitOnSeparator(a, b, ':');
    SplitOnSeparator(action, a + ":" + b, ':');
    assert action + ":" + a + ":" + b == action + [':'] + (a + ":" + b);
    assert a + ":" + b == a + [':'] + b;
  }

  /** The handlers' prefixes are told apart by their first and third characters, and
      each ends in a colon: no data starts with two of them. */
  lemma PrefixesExclusive(data: string)
    ensures StartsWith(data, "approve_all:") ==> data[0] == 'a' && ':' in data
    ensures StartsWith(data, "reject_all:") ==> data[0] == 'r' && data[2] == 'j' && ':' in data
    ensures StartsWith(data, "selective:") ==> data[0] == 's' && ':' in data
    ensures StartsWith(data, "keep:") ==> data[0] == 'k' && ':' in data
    ensures StartsWith(data, "remove:") ==> data[0] == 'r' && data[2] == 'm' && ':' in data
    ensures StartsWith(data, "finalize:") ==> data[0] == 'f' && ':' in data
  {
    PrefixChars(data, "approve_all:");
    PrefixChars(data, "reject_all:");
    PrefixChars(data, "selective:");
    PrefixChars(data, "keep:");
    PrefixChars(data, "remove:");
    PrefixChars(data, "finalize:");
  }

  lemma PrefixChars(data: string, prefix: string)
    requires |prefix| >= 3
    ensures StartsWith(data, prefix) ==>
              data[0] == prefix[0] && data[2] == prefix[2] && data[|prefix| - 1] == prefix[|prefix| - 1]
  {
    if StartsWith(data, prefix) {
      assert data[..|prefix|] == prefix;
    }
  }

  lemma StartsWithConcat(prefix: string, rest: string)
    ensures StartsWith(prefix + rest, prefix)
  {
    assert (prefix + rest)[..|prefix|] == prefix;
  }

  lemma NotStartsWithAt(s: string, prefix: string, i: nat)
    requires i < |prefix| && i < |s| && s[i] != prefix[i]
    ensures !StartsWith(s, prefix)
  {
  }

  /** The id parsed from tag + rest, where the tag ends in its only colon, is int(rest). */
  lemma IdAfterTag(tag: string, rest: string)
    requires |tag| > 0 && tag[|tag| - 1] == ':' && ':' !in tag[..|tag| - 1]
    ensures CallbackId(tag + rest) == PyInt(rest)
  {
    var name := tag[..|tag| - 1];
    assert tag == name + ":";
    assert tag + rest == name + ":" + rest;
    CallbackIdAfterPrefix(name, rest);
  }

  /** Routing and id parsing of the data of the three submission buttons and of the finalize button. */
  lemma RouteApproveAll(rest: string)
    ensures HandlerFor("approve_all:" + rest) == ApproveAllHandler
    ensures CallbackId("approve_all:" + rest) == PyInt(rest)
  {
    StartsWithConcat("approve_all:", rest);
    IdAfterTag("approve_all:", rest);
  }

  lemma RouteRejectAll(rest: string)
    ensures HandlerFor("reject_all:" + rest) == RejectAllHandler
    ensures CallbackId("reject_all:" + rest) == PyInt(rest)
  {
    var s := "reject_all:" + rest;
    NotStartsWithAt(s, "approve_all:", 0);
    StartsWithConcat("reject_all:", rest);
    IdAfterTag("reject_all:", rest);
  }

  lemma RouteSelective(rest: string)
    ensures HandlerFor("selective:" + rest) == SelectiveHandler
    ensures CallbackId("selective:" + rest) == PyInt(rest)
  {
    var s := "selective:" + rest;
    NotStartsWithAt(s, "approve_all:", 0);
    NotStartsWithAt(s, "reject_all:", 0);
    StartsWithConcat("selective:", rest);
    IdAfterTag("selective:", rest);
  }

  lemma RouteFinalize(rest: string)
    ensures HandlerFor("finalize:" + rest) == FinalizeHandler
    ensures CallbackId("finalize:" + rest) == PyInt(rest)
  {
    var s := "finalize:" + rest;
    NotStartsWithAt(s, "approve_all:", 0);
    NotStartsWithAt(s, "reject_all:", 0);
    NotStartsWithAt(s, "selective:", 0);
    NotStartsWithAt(s, "keep:", 0);
    NotStartsWithAt(s, "remove:", 0);
    StartsWithConcat("finalize:", rest);
    IdAfterTag("finalize:", rest);
  }

  /** Routing of "keep:a:b" and "remove:a:b". */
  lemma RouteKeep(a: string, b: string)
    requires ':' !in a && ':' !in b
    ensures HandlerFor("keep:" + a + ":" + b) == KeepRemoveHandler
  {
    var s := "keep:" + a + ":" + b;
    assert s == "keep:" + (a + ":" + b);
    NotStartsWithAt(s, "approve_all:", 0);
    NotStartsWithAt(s, "reject_all:", 0);
    NotStartsWithAt(s, "selective:", 0);
    StartsWithConcat("keep:", a + ":" + b);
  }

  lemma RouteRemove(a: string, b: string)
    requires ':' !in a && ':' !in b
    ensures HandlerFor("remove:" + a + ":" + b) == KeepRemoveHandler
  {
    var s := "remove:" + a + ":" + b;
    assert s == "remove:" + (a + ":" + b);
    NotStartsWithAt(s, "approve_all:", 0);
    NotStartsWithAt(s, "reject_all:", 2);
    NotStartsWithAt(s, "selective:", 0);
    NotStartsWithAt(s, "keep:", 0);
    StartsWithConcat("remove:", a + ":" + b);
  }

  /** Every button of a new submission reaches the intended handler with the submission's id. */
  lemma ApprovalButtonsRoundTrip(id: int)
    ensures HandlerFor(ApprovalButtons(id)[0]) == ApproveAllHandler && CallbackId(ApprovalButtons(id)[0]) == Some(id)
    ensures HandlerFor(ApprovalButtons(id)[1]) == RejectAllHandler && CallbackId(ApprovalButtons(id)[1]) == Some(id)
    ensures HandlerFor(ApprovalButtons(id)[2]) == SelectiveHandler && CallbackId(ApprovalButtons(id)[2]) == Some(id)
  {
    var n := IntToString(id);
    IntToStringRoundTrip(id);
    RouteApproveAll(n);
    RouteRejectAll(n);
    RouteSelective(n);
  }

  /** Keep and remove data reach the keep/remove handler. */
  lemma MarkDataRoute(action: string, id: int, index: int)
    requires action == "keep" || action == "remove"
    ensures HandlerFor(MarkData(action, id, index)) == KeepRemoveHandler
  {
    var n, k := IntToString(id), IntToString(index);
    var tag := action + ":";
    assert MarkData(action, id, index) == tag + (n + ":" + k);
    StartsWithConcat(tag, n + ":" + k);
    assert tag == "keep:" || tag == "remove:";
  }

  lemma NoColonInActions()
    ensures ':' !in "keep" && ':' !in "remove"
  {
  }

  /** The finalize button reaches the finalize handler with the submission's id. */
  lemma FinalizeButtonsRoundTrip(id: int)
    ensures HandlerFor(FinalizeButtons(id)[0]) == FinalizeHandler && CallbackId(FinalizeButtons(id)[0]) == Some(id)
  {
    IntToStringRoundTrip(id);
    RouteFinalize(IntToString(id));
  }
}
