/** The branching-dialogue data shown on the hacking console: beats of
    text, each offering choices that lead to other beats by id. */
module StoryData {
  import opened Unity

  /** One option under a beat: its text and the id of the beat it leads to. */
  datatype ChoiceData = ChoiceData(displayText: string, nextId: int)

  /** One page of dialogue: its choices (the `Decision` list), its text and its id. */
  datatype BeatData = BeatData(decision: seq<ChoiceData>, displayText: string, id: int)

  /** Some beat of the list has this id. */
  predicate HasId(beats: seq<BeatData>, id: int)
  {
    exists k | 0 <= k < |beats| :: beats[k].id == id
  }

  /** List<BeatData>.Find with the predicate `b.ID == id`: the first beat in
      list order with that id, or null (None) when there is none. */
  function GetBeatById(beats: seq<BeatData>, id: int): (r: Option<BeatData>)
    ensures r.Some? ==> r.value.id == id && r.value in beats
    ensures r.None? <==> !HasId(beats, id)
    ensures r.Some? ==> exists k | 0 <= k < |beats| ::
      beats[k] == r.value && forall j | 0 <= j < k :: beats[j].id != id
  {
    if |beats| == 0 then None
    else if beats[0].id == id then Some(beats[0])
    else
      var rest := GetBeatById(beats[1..], id);
      assert HasId(beats, id) ==> HasId(beats[1..], id) by {
        if HasId(beats, id) {
          var k :| 0 <= k < |beats| && beats[k].id == id;
          assert beats[1..][k - 1].id == id;
        }
      }
      assert rest.Some? ==> exists k | 0 <= k < |beats| ::
          beats[k] == rest.value && forall j | 0 <= j < k :: beats[j].id != id by {
        if rest.Some? {
          var k :| 0 <= k < |beats[1..]| && beats[1..][k] == rest.value
                   && forall j | 0 <= j < k :: beats[1..][j].id != id;
          assert beats[k + 1] == rest.value;
          assert forall j | 0 <= j < k + 1 :: beats[j].id != id by {
            forall j | 0 <= j < k + 1 ensures beats[j].id != id {
              if j > 0 { assert beats[j] == beats[1..][j - 1]; }
            }
          }
        }
      }
      rest
  }

  /** The lookup is determined by the beat found: any beat of the list that is
      the first with its id is what GetBeatById returns for that id. */
  lemma {:induction false} GetBeatByIdFindsFirst(beats: seq<BeatData>, k: int)
    requires 0 <= k < |beats|
    requires forall j | 0 <= j < k :: beats[j].id != beats[k].id
    ensures GetBeatById(beats, beats[k].id) == Some(beats[k])
  {
    if k > 0 {
      GetBeatByIdFindsFirst(beats[1..], k - 1);
    }
  }
}
