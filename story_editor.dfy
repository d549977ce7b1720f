/** The editor window in which beats and choices of a story asset are
    authored: id allocation, id lookups, appending beats and choices, the
    view being shown, and the collection of story assets from a folder. */
module StoryEditor {
  import opened Unity
  import opened StoryData

  /** Text the editor gives to new beats and choices. */
  const FirstBeatText := "First Story Beat"
  const NewBeatText := "New Story Beat"
  const NewChoiceText := "New Beat Choice"

  /** No two beats of the list share an id. */
  ghost predicate DistinctIds(beats: seq<BeatData>)
  {
    forall i, j | 0 <= i < j < |beats| :: beats[i].id != beats[j].id
  }

  /** The ids used by the list. */
  ghost function Ids(beats: seq<BeatData>): (ids: set<int>)
    ensures |ids| <= |beats|
    ensures forall id :: id in ids <==> HasId(beats, id)
  {
    if |beats| == 0 then {}
    else
      var rest := Ids(beats[1..]);
      assert forall id :: HasId(beats, id) <==> id == beats[0].id || HasId(beats[1..], id) by {
        forall id ensures HasId(beats, id) <==> id == beats[0].id || HasId(beats[1..], id) {
          if HasId(beats, id) && id != beats[0].id {
            var k :| 0 <= k < |beats| && beats[k].id == id;
            assert beats[1..][k - 1].id == id;
          }
          if HasId(beats[1..], id) {
            var k :| 0 <= k < |beats[1..]| && beats[1..][k].id == id;
            assert beats[k + 1].id == id;
          }
        }
      }
      {beats[0].id} + rest
  }

  /** The ids 1..r. */
  ghost function Range(r: nat): (s: set<int>)
    ensures |s| == r
    ensures forall j :: j in s <==> 1 <= j <= r
  {
    if r == 0 then {} else Range(r - 1) + {r}
  }

  /** If every id 1..r is in use, the list has at least r beats. */
  lemma UsedRangeFits(beats: seq<BeatData>, r: nat)
    requires forall j | 1 <= j <= r :: HasId(beats, j)
    ensures r <= |beats|
  {
    SubsetSize(Range(r), Ids(beats));
  }

  lemma SubsetSize(a: set<int>, b: set<int>)
    requires a <= b
    ensures |a| <= |b|
  {
    assert b == a + (b - a);
  }

  /** Whether some beat already has `beatId`; the scan stops at the first
      match (`examined` counts the beats looked at). */
  method IsIdInList(beats: seq<BeatData>, beatId: int) returns (result: bool, ghost examined: nat)
    ensures result <==> HasId(beats, beatId)
    ensures examined <= |beats|
    ensures result ==> examined > 0 && beats[examined - 1].id == beatId
    ensures result ==> forall j | 0 <= j < examined - 1 :: beats[j].id != beatId
  {
    result := false;
    var count := 0;
    while count < |beats| && !result
      invariant 0 <= count <= |beats|
      invariant !result ==> forall j | 0 <= j < count :: beats[j].id != beatId
      invariant result ==> count > 0 && beats[count - 1].id == beatId
      invariant result ==> forall j | 0 <= j < count - 1 :: beats[j].id != beatId
    {
      result := beats[count].id == beatId;
      count := count + 1;
    }
    examined := count;
  }

  /** The smallest positive id no beat uses; it never exceeds the number of
      beats plus one. */
  method FindUniqueId(beats: seq<BeatData>) returns (result: int)
    ensures 1 <= result <= |beats| + 1
    ensures !HasId(beats, result)
    ensures forall j | 1 <= j < result :: HasId(beats, j)
  {
    result := 1;
    ghost var examined;
    var used;
    used, examined := IsIdInList(beats, result);
    while used
      invariant 1 <= result <= |beats| + 1
      invariant used <==> HasId(beats, result)
      invariant forall j | 1 <= j < result :: HasId(beats, j)
      decreases |beats| + 1 - result
    {
      UsedRangeFits(beats, result);
      result := result + 1;
      used, examined := IsIdInList(beats, result);
    }
  }

  /** The index of the first beat with `beatId`, or -1 when none has it. */
  method FindIndexOfBeatId(beats: seq<BeatData>, beatId: int) returns (result: int)
    ensures -1 <= result < |beats|
    ensures result == -1 <==> !HasId(beats, beatId)
    ensures result >= 0 ==> beats[result].id == beatId
    ensures result >= 0 ==> forall j | 0 <= j < result :: beats[j].id != beatId
  {
    result := -1;
    var count := 0;
    while count < |beats|
      invariant 0 <= count <= |beats|
      invariant forall j | 0 <= j < count :: beats[j].id != beatId
    {
      if beats[count].id == beatId {
        result := count;
        break;
      }
      count := count + 1;
    }
  }

  /** The folder scan that lists story assets: every asset loaded from the
      folder that is not yet in the list is appended (`loaded` holds one
      entry per file, None where the file is not an asset of the wanted
      type). */
  method TryGetObjectsFromPath<T(==)>(loaded: seq<Option<T>>, assetsFound: seq<T>) returns (result: seq<T>)
    ensures |assetsFound| <= |result| && result[..|assetsFound|] == assetsFound
    ensures forall k | 0 <= k < |loaded| && loaded[k].Some? :: loaded[k].value in result
    ensures forall a | a in result :: a in assetsFound || Some(a) in loaded
    ensures forall i, j | |assetsFound| <= i < j < |result| :: result[i] != result[j]
    ensures forall i, j | 0 <= i < |assetsFound| <= j < |result| :: result[i] != result[j]
  {
    result := assetsFound;
    for i := 0 to |loaded|
      invariant |assetsFound| <= |result| && result[..|assetsFound|] == assetsFound
      invariant forall k | 0 <= k < i && loaded[k].Some? :: loaded[k].value in result
      invariant forall a | a in result :: a in assetsFound || Some(a) in loaded
      invariant forall p, q | |assetsFound| <= p < q < |result| :: result[p] != result[q]
      invariant forall p, q | 0 <= p < |assetsFound| <= q < |result| :: result[p] != result[q]
    {
      if loaded[i].Some? && loaded[i].value !in result {
        result := result + [loaded[i].value];
      }
    }
  }

  /** Adding an asset list to a duplicate-free list keeps it duplicate-free. */
  lemma CollectedAssetsDistinct<T>(assetsFound: seq<T>, result: seq<T>)
    requires |assetsFound| <= |result| && result[..|assetsFound|] == assetsFound
    requires forall i, j | 0 <= i < j < |assetsFound| :: assetsFound[i] != assetsFound[j]
    requires forall i, j | |assetsFound| <= i < j < |result| :: result[i] != result[j]
    requires forall i, j | 0 <= i < |assetsFound| <= j < |result| :: result[i] != result[j]
    ensures forall i, j | 0 <= i < j < |result| :: result[i] != result[j]
  {
    forall i, j | 0 <= i < j < |result| ensures result[i] != result[j] {
      if j < |assetsFound| {
        assert result[i] == assetsFound[i] && result[j] == assetsFound[j];
      }
    }
  }

  /** Appending a beat with an unused id (and changing no other id) keeps
      ids distinct. */
  lemma AppendedIdKeepsDistinct(before: seq<BeatData>, after: seq<BeatData>)
    requires |after| == |before| + 1
    requires forall k | 0 <= k < |before| :: after[k].id == before[k].id
    requires !HasId(before, after[|before|].id)
    ensures DistinctIds(before) ==> DistinctIds(after)
  {
    if DistinctIds(before) {
      forall i, j | 0 <= i < j < |after| ensures after[i].id != after[j].id {
        if j == |before| {
          assert before[i].id == after[i].id;
        } else {
          assert before[i].id != before[j].id;
        }
      }
    }
  }

  /** The three screens of the editor window. */
  datatype View = BeatList | Beat | DataList

  /** The editor window's state: the beat list of the story being edited, the
      view, the index of the beat being edited and of the data set chosen. */
  class StoryEditorWindow {
    var beats: seq<BeatData>
    var view: View
    var currentIndex: int
    var dataIndex: int

    constructor (story: seq<BeatData>)
      ensures beats == story && view == BeatList && currentIndex == -1 && dataIndex == -1
    {
      beats := story;
      view := BeatList;
      currentIndex := -1;
      dataIndex := -1;
    }

    /** The screen OnGUI draws: the beat view needs a beat index, the data
        list is drawn when chosen, everything else shows the beat list. */
    function Screen(): (s: View)
      reads this
      ensures s == Beat <==> view == Beat && currentIndex != -1
      ensures s == DataList <==> view == DataList
    {
      if view == Beat && currentIndex != -1 then Beat
      else if view == DataList then DataList
      else BeatList
    }

    /** Grow the list by one beat with the given id and text. The serialized
        list fills the new slot with a copy of the previous last element, so
        the new beat carries that beat's choices (none for an empty list). */
    method AddBeat(beatId: int, initialText: string)
      modifies this
      ensures |beats| == |old(beats)| + 1 && beats[..|old(beats)|] == old(beats)
      ensures beats[|beats| - 1].id == beatId && beats[|beats| - 1].displayText == initialText
      ensures beats[|beats| - 1].decision ==
        (if |old(beats)| == 0 then [] else old(beats)[|old(beats)| - 1].decision)
      ensures view == old(view) && currentIndex == old(currentIndex) && dataIndex == old(dataIndex)
    {
      var inherited := if |beats| == 0 then [] else beats[|beats| - 1].decision;
      beats := beats + [BeatData(inherited, initialText, beatId)];
    }

    /** Append one choice leading to `beatId` to the beat at `beatIndex`. */
    method AddChoice(beatIndex: int, beatId: int, initialText: string)
      requires 0 <= beatIndex < |beats|
      modifies this
      ensures |beats| == |old(beats)|
      ensures forall k | 0 <= k < |beats| && k != beatIndex :: beats[k] == old(beats)[k]
      ensures beats[beatIndex].id == old(beats)[beatIndex].id
      ensures beats[beatIndex].displayText == old(beats)[beatIndex].displayText
      ensures beats[beatIndex].decision ==
        old(beats)[beatIndex].decision + [ChoiceData(initialText, beatId)]
      ensures view == old(view) && currentIndex == old(currentIndex) && dataIndex == old(dataIndex)
    {
      var b := beats[beatIndex];
      beats := beats[beatIndex := b.(decision := b.decision + [ChoiceData(initialText, beatId)])];
    }

    /** Drawing the beat list of an empty story first creates beat 1. */
    method OpenBeatList()
      modifies this
      ensures old(|beats|) == 0 ==> beats == [BeatData([], FirstBeatText, 1)]
      ensures old(|beats|) != 0 ==> beats == old(beats)
      ensures view == old(view) && currentIndex == old(currentIndex) && dataIndex == old(dataIndex)
    {
      if |beats| == 0 {
        AddBeat(1, FirstBeatText);
      }
    }

    /** The "Add Choice" button of the beat view: a new beat with a fresh id
        is appended and the beat being edited gets a choice leading to it. */
    method AddChoiceClicked() returns (newBeatId: int)
      requires view == Beat && 0 <= currentIndex < |beats|
      modifies this
      ensures view == old(view) && currentIndex == old(currentIndex)
      ensures !HasId(old(beats), newBeatId) && newBeatId >= 1
      ensures |beats| == |old(beats)| + 1 && beats[|beats| - 1].id == newBeatId
      ensures beats[currentIndex].decision ==
        old(beats)[currentIndex].decision + [ChoiceData(NewChoiceText, newBeatId)]
      ensures GetBeatById(beats, newBeatId) == Some(beats[|beats| - 1])
      ensures DistinctIds(old(beats)) ==> DistinctIds(beats)
      ensures forall k | 0 <= k < |old(beats)| :: beats[k].id == old(beats)[k].id
    {
      newBeatId := FindUniqueId(beats);
      AddBeat(newBeatId, NewBeatText);
      AddChoice(currentIndex, newBeatId, NewChoiceText);
      var last := |beats| - 1;
      assert forall j | 0 <= j < last :: beats[j].id != newBeatId by {
        forall j | 0 <= j < last ensures beats[j].id != newBeatId {
          assert beats[j].id == old(beats)[j].id;
          assert old(beats)[j].id != newBeatId;
        }
      }
      GetBeatByIdFindsFirst(beats, last);
      AppendedIdKeepsDistinct(old(beats), beats);
    }

    /** "Edit" on row `count` of the beat list opens that beat. */
    method EditClicked(count: int)
      modifies this
      ensures view == Beat && currentIndex == count
      ensures beats == old(beats) && dataIndex == old(dataIndex)
    {
      view := Beat;
      currentIndex := count;
    }

    /** "Delete" on row `count` of the beat list removes that beat. */
    method DeleteClicked(count: int)
      requires 0 <= count < |beats|
      modifies this
      ensures beats == old(beats)[..count] + old(beats)[count + 1..]
      ensures view == old(view) && currentIndex == old(currentIndex) && dataIndex == old(dataIndex)
    {
      beats := beats[..count] + beats[count + 1..];
    }

    /** "Go to Beat" on a choice jumps to the first beat with its target id;
        when no beat has it the index becomes -1 and the beat list is shown. */
    method GoToBeat(beatId: int)
      modifies this
      ensures beats == old(beats) && -1 <= currentIndex < |beats|
      ensures currentIndex == -1 <==> !HasId(beats, beatId)
      ensures currentIndex >= 0 ==> beats[currentIndex].id == beatId
      ensures !HasId(beats, beatId) ==> Screen() != Beat
      ensures beats == old(beats) && view == old(view) && dataIndex == old(dataIndex)
    {
      currentIndex := FindIndexOfBeatId(beats, beatId);
    }

    /** "Return to Beat List" in the beat view. */
    method ReturnToBeatList()
      modifies this
      ensures view == BeatList && currentIndex == -1 && Screen() == BeatList
      ensures beats == old(beats) && dataIndex == old(dataIndex)
    {
      view := BeatList;
      currentIndex := -1;
    }

    /** "Return to Data List" in the beat list. */
    method ReturnToDataList()
      modifies this
      ensures view == DataList && dataIndex == -1 && Screen() == DataList
      ensures beats == old(beats) && currentIndex == old(currentIndex)
    {
      view := DataList;
      dataIndex := -1;
    }

    /** "Edit Data Set" on row `count` of the data list: that story becomes
        the one edited and its beat list is shown. */
    method EditDataSet(count: int, story: seq<BeatData>)
      modifies this
      ensures dataIndex == count && beats == story && view == BeatList
      ensures currentIndex == old(currentIndex)
    {
      dataIndex := count;
      beats := story;
      view := BeatList;
    }
  }
}
