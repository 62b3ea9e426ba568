/**
 * The album branch of the message handler as written, in two steps: the part is
 * appended to its list, the handler then awaits the deletion of the message, and
 * only after that await does it compare the list's length with one. Handlers for
 * the other parts of the same album run concurrently and can append in between.
 */
module AlbumRace {
  import opened Media
  import opened MediaBot

  /** The key's list in the buffer, empty when the key has none: setdefault(key, []).
      AppendStep reads it before its own append; CheckStep reads it after the await,
      when other handlers may have appended to it. */
  function ListAt(buffer: map<string, seq<Item>>, key: string): seq<Item> {
    if key in buffer then buffer[key] else []
  }

  /** arr.append(item), before the await. */
  function AppendStep(buffer: map<string, seq<Item>>, key: string, it: Item): (b: map<string, seq<Item>>)
    ensures key in b && b[key] == ListAt(buffer, key) + [it]
    ensures forall other :: other != key ==> (other in b <==> other in buffer)
    ensures forall other :: other != key && other in buffer ==> b[other] == buffer[other]
  {
    buffer[key := ListAt(buffer, key) + [it]]
  }

  /** if len(arr) == 1: create the flush task; after the await. */
  function CheckStep(buffer: map<string, seq<Item>>, armed: multiset<string>, key: string): (a: multiset<string>)
    ensures a[key] == armed[key] + (if |ListAt(buffer, key)| == 1 then 1 else 0)
    ensures forall other :: other != key ==> a[other] == armed[other]
  {
    if |ListAt(buffer, key)| == 1 then armed + multiset{key} else armed
  }

  /** One handler after another: the first part creates the flush task and the second
      does not, so the album is flushed once. */
  lemma SequentialPartsFlushOnce(key: string, x: Item, y: Item)
    ensures var afterX := AppendStep(map[], key, x);
            var armedX := CheckStep(afterX, multiset{}, key);
            var afterY := AppendStep(afterX, key, y);
            CheckStep(afterY, armedX, key) == multiset{key} && ArmedFor(afterY, multiset{key})
  {
    var afterX := AppendStep(map[], key, x);
    var empty: seq<Item> := [];
    assert empty + [x] == [x] && [x] + [y] == [x, y];
    assert afterX == map[key := [x]];
    var afterY := AppendStep(afterX, key, y);
    assert afterY == map[key := [x, y]];
  }

  /** The second part is appended while the first handler awaits the deletion: both
      handlers then see a list of two and neither creates the flush task, so the album
      stays in the buffer and never becomes a pending row. */
  lemma InterleavedPartsNeverFlush(key: string, x: Item, y: Item)
    ensures var both := AppendStep(AppendStep(map[], key, x), key, y);
            both[key] == [x, y] &&
            CheckStep(both, CheckStep(both, multiset{}, key), key) == multiset{} &&
            !ArmedFor(both, CheckStep(both, CheckStep(both, multiset{}, key), key))
  {
    var both := AppendStep(AppendStep(map[], key, x), key, y);
    assert |ListAt(both, key)| == 2;
  }

  /** The deletion raises an error other than TelegramBadRequest for the first part:
      its handler ends after the append and before the check. The second part's
      handler then sees a list of two and does not create the flush task either, so
      the album stays in the buffer with no flush task waiting for it. */
  lemma {:induction false} DeleteErrorStrandsAlbum(key: string, x: Item, y: Item)
    ensures var afterX := AppendStep(map[], key, x);
            var both := AppendStep(afterX, key, y);
            afterX[key] == [x] && !ArmedFor(afterX, multiset{}) &&
            both[key] == [x, y] && CheckStep(both, multiset{}, key) == multiset{} &&
            !ArmedFor(both, CheckStep(both, multiset{}, key))
  {
    var empty: seq<Item> := [];
    assert empty + [x] == [x] && [x] + [y] == [x, y];
    var afterX := AppendStep(map[], key, x);
    assert afterX == map[key := [x]];
    assert multiset{}[key] == 0;
    var both := AppendStep(afterX, key, y);
    assert both == map[key := [x, y]];
  }

  /** The corrected order: the flush task is decided at the append, before the await,
      so a deletion that raises for the first part no longer loses its task, and the
      second part's handler does not create another. */
  lemma {:induction false} ArmBeforeDeleteFlushesOnce(key: string, x: Item, y: Item)
    ensures var afterX := AppendStep(map[], key, x);
            var armedX := CheckAtAppend(multiset{}, key, |afterX[key]|);
            var both := AppendStep(afterX, key, y);
            var armedY := CheckAtAppend(armedX, key, |both[key]|);
            armedX == multiset{key} && ArmedFor(afterX, armedX) &&
            both[key] == [x, y] && armedY == multiset{key} && ArmedFor(both, armedY)
  {
    var empty: seq<Item> := [];
    assert empty + [x] == [x] && [x] + [y] == [x, y];
    var afterX := AppendStep(map[], key, x);
    assert afterX == map[key := [x]];
    var both := AppendStep(afterX, key, y);
    assert both == map[key := [x, y]];
  }

  /** The corrected album branch, in the same two steps: the handler keeps the length
      its own append produced and, after the await, creates the flush task iff that
      length was one, whatever other handlers appended in between. */
  function CheckAtAppend(armed: multiset<string>, key: string, sizeAtAppend: nat): (a: multiset<string>)
    ensures a[key] == armed[key] + (if sizeAtAppend == 1 then 1 else 0)
    ensures forall other :: other != key ==> a[other] == armed[other]
  {
    if sizeAtAppend == 1 then armed + multiset{key} else armed
  }

  /** With the length taken at the append, the interleaving that loses the album above
      creates exactly one flush task, in whichever order the two checks run. */
  lemma {:induction false} InterleavedCountedPartsFlushOnce(key: string, x: Item, y: Item)
    ensures var afterX := AppendStep(map[], key, x);
            var both := AppendStep(afterX, key, y);
            var xFirst := CheckAtAppend(CheckAtAppend(multiset{}, key, |afterX[key]|), key, |both[key]|);
            var yFirst := CheckAtAppend(CheckAtAppend(multiset{}, key, |both[key]|), key, |afterX[key]|);
            both[key] == [x, y] && xFirst == yFirst == multiset{key} && ArmedFor(both, xFirst)
  {
    var empty: seq<Item> := [];
    assert empty + [x] == [x] && [x] + [y] == [x, y];
    var afterX := AppendStep(map[], key, x);
    assert afterX == map[key := [x]];
    var both := AppendStep(afterX, key, y);
    assert both == map[key := [x, y]];
  }
}
