/**
 * Which messages the bot acts on: the ADMIN_IDS list and the three early
 * returns of the message handler.
 */
module Admission {
  import opened Wrappers
  import opened Text

  /** One comma-separated piece of ADMIN_IDS: stripped, skipped when empty, kept when
      int() accepts it (int() strips again, which changes nothing: see AdminIdOfIsInt). */
  function AdminIdOf(piece: string): (r: Option<int>)
    ensures r == PyInt(piece)
  {
    var part := Strip(piece);
    if part == "" then None else ParseDecimal(part)
  }

  lemma AdminIdOfIsInt(piece: string)
    ensures AdminIdOf(piece) == if Strip(piece) == "" then None else PyInt(Strip(piece))
  {
    StripIdempotent(piece);
  }

  /** The ids among a list of parse results. */
  function Collect(results: seq<Option<int>>): set<int> {
    if results == [] then {}
    else Collect(results[..|results| - 1]) + (if results[|results| - 1].Some? then {results[|results| - 1].value} else {})
  }

  /** The parse result of every piece. */
  function PieceIds(parts: seq<string>): (r: seq<Option<int>>)
    ensures |r| == |parts|
  {
    seq(|parts|, j requires 0 <= j < |parts| => AdminIdOf(parts[j]))
  }

  /** ADMIN_IDS parsed from the raw environment value. */
  function AdminIds(raw: string): (ids: set<int>)
  {
    if raw == "" then {} else Collect(PieceIds(Split(raw, ',')))
  }

  /** The ids collected from the pieces of raw are the ints of those pieces; an empty
      raw value splits into one empty piece, which int() rejects. */
  lemma AdminIdsMembership(raw: string, x: int)
    ensures x in AdminIds(raw) <==> exists p :: p in Split(raw, ',') && PyInt(p) == Some(x)
  {
    var parts := Split(raw, ',');
    var results := PieceIds(parts);
    CollectMembership(results, x);
    if raw == "" {
      assert parts == [""] && PyInt("") == None;
    } else {
      if x in AdminIds(raw) {
        var j :| 0 <= j < |results| && results[j] == Some(x);
        assert parts[j] in parts && PyInt(parts[j]) == AdminIdOf(parts[j]) == Some(x);
      }
      if exists p :: p in parts && PyInt(p) == Some(x) {
        var p :| p in parts && PyInt(p) == Some(x);
        var j :| 0 <= j < |parts| && parts[j] == p;
        assert results[j] == AdminIdOf(p) == Some(x);
      }
    }
  }

  /** An id is collected exactly when some result is that id. */
  lemma {:induction false} CollectMembership(results: seq<Option<int>>, x: int)
    ensures x in Collect(results) <==> exists j :: 0 <= j < |results| && results[j] == Some(x)
  {
    if results != [] {
      var init := results[..|results| - 1];
      CollectMembership(init, x);
      if x in Collect(init) {
        var j :| 0 <= j < |init| && init[j] == Some(x);
        assert results[j] == init[j];
      }
      if exists j :: 0 <= j < |results| && results[j] == Some(x) {
        var j :| 0 <= j < |results| && results[j] == Some(x);
        if j < |init| {
          assert init[j] == results[j];
        }
      }
    }
  }

  lemma CollectStep(results: seq<Option<int>>, i: nat)
    requires i < |results|
    ensures Collect(results[..i + 1]) ==
              Collect(results[..i]) + (if results[i].Some? then {results[i].value} else {})
  {
    assert results[..i + 1][..i] == results[..i];
  }

  /** The body of that loop for one piece: strip, skip if empty, int(). */
  method ParsePiece(piece: string) returns (v: Option<int>)
    ensures v == AdminIdOf(piece)
  {
    var part := Strip(piece);
    v := None;
    if part != "" {
      v := PyInt(part);
      AdminIdOfIsInt(piece);
    }
  }

  /** The module-level loop that fills ADMIN_IDS. */
  method ParseAdminIds(raw: string) returns (ids: set<int>)
    ensures ids == AdminIds(raw)
  {
    ids := {};
    if raw != "" {
      var parts := Split(raw, ',');
      ghost var results := PieceIds(parts);
      var i := 0;
      while i < |parts|
        invariant 0 <= i <= |parts|
        invariant ids == Collect(results[..i])
      {
        var v := ParsePiece(parts[i]);
        if v.Some? {
          ids := ids + {v.value};
        }
        CollectStep(results, i);
        i := i + 1;
      }
      assert results[..|parts|] == results;
    }
  }

  /** str(n) for each n in ns. */
  function IdStrings(ns: seq<int>): (strs: seq<string>)
    ensures |strs| == |ns| && forall i :: 0 <= i < |ns| ==> strs[i] == IntToString(ns[i])
  {
    seq(|ns|, i requires 0 <= i < |ns| => IntToString(ns[i]))
  }

  /** ",".join(str(n) for n in ns): the canonical way to write an admin list. */
  function JoinIds(ns: seq<int>): string {
    if ns == [] then "" else Join(IdStrings(ns), ',')
  }

  lemma {:induction false} JoinNotEmpty(parts: seq<string>, sep: char)
    requires |parts| >= 1 && parts[0] != []
    ensures Join(parts, sep) != []
  {
  }

  /** A non-empty canonical admin list splits back into the str() of each id. */
  lemma JoinIdsSplit(ns: seq<int>)
    requires ns != []
    ensures JoinIds(ns) != "" && Split(JoinIds(ns), ',') == IdStrings(ns)
  {
    var strs := IdStrings(ns);
    forall p | p in strs ensures ',' !in p {
      var i :| 0 <= i < |strs| && strs[i] == p;
      IntToStringHasNo(ns[i], ',');
    }
    SplitJoin(strs, ',');
    JoinNotEmpty(strs, ',');
  }

  /** A canonically written admin list parses back to exactly its ids. */
  lemma AdminIdsRoundTrip(ns: seq<int>)
    ensures AdminIds(JoinIds(ns)) == set n | n in ns
  {
    if ns != [] {
      var raw := JoinIds(ns);
      var strs := IdStrings(ns);
      JoinIdsSplit(ns);
      forall x
        ensures x in AdminIds(raw) <==> x in ns
      {
        AdminIdsMembership(raw, x);
        if x in ns {
          var j :| 0 <= j < |ns| && ns[j] == x;
          IntToStringRoundTrip(ns[j]);
          assert strs[j] in strs;
        }
        if exists p :: p in strs && PyInt(p) == Some(x) {
          var p :| p in strs && PyInt(p) == Some(x);
          IdStringParses(ns, p, x);
        }
      }
    }
  }

  lemma IdStringParses(ns: seq<int>, p: string, x: int)
    requires p in IdStrings(ns) && PyInt(p) == Some(x)
    ensures x in ns
  {
    var j :| 0 <= j < |ns| && IdStrings(ns)[j] == p;
    IntToStringRoundTrip(ns[j]);
  }

  /** An incoming message: photo holds the file ids of the photo's sizes, largest last;
      the empty string stands for a missing media_group_id, username or caption. */
  datatype Message = Message(fromBot: bool, chatId: int, userId: int, username: string, fullName: string,
                             mediaGroupId: string, photo: seq<string>, video: Option<string>, caption: string)

  /** user_is_admin */
  predicate IsAdmin(admins: set<int>, userId: int)
    ensures admins == {} ==> !IsAdmin(admins, userId)
  {
    userId in admins
  }

  /** The handler goes past its early returns: the sender is no bot, the chat is the main
      group (str(chat.id) compared with the configured text), and the sender is no admin. */
  predicate Admitted(m: Message, mainGroup: string, admins: set<int>)
    ensures Admitted(m, mainGroup, admins) ==> !m.fromBot && m.userId !in admins
    ensures Admitted(m, mainGroup, admins) ==>
              mainGroup != [] && mainGroup[0] != '+' && !IsSpace(mainGroup[0]) && !IsSpace(mainGroup[|mainGroup| - 1])
  {
    !m.fromBot && IntToString(m.chatId) == mainGroup && !IsAdmin(admins, m.userId)
  }

  /** With the main group written as str() of its id, the text comparison is id equality. */
  lemma AdmittedIff(m: Message, group: int, admins: set<int>)
    ensures Admitted(m, IntToString(group), admins) <==> !m.fromBot && m.chatId == group && m.userId !in admins
  {
    IntToStringInjective(m.chatId, group);
  }

  /** A main group id written with a plus sign or surrounding whitespace is accepted by
      int() for sending, yet no message ever passes the textual chat comparison. */
  lemma NonCanonicalGroupAdmitsNothing(m: Message, mainGroup: string, admins: set<int>)
    requires mainGroup != [] && (mainGroup[0] == '+' || IsSpace(mainGroup[0]) || IsSpace(mainGroup[|mainGroup| - 1]))
    ensures !Admitted(m, mainGroup, admins)
  {
  }
}
