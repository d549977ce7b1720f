/** The waypoint set and its inspector: a manager holding an ordered list of
    waypoints (offsets from the manager's position), and the editor that
    selects, edits, removes and inserts them and draws the patrol ring. The
    editor works on the manager's own list, so both see every change. */
module Waypoints {
  import opened Unity

  class Waypoint {
    /** The serialized offset from the owning manager's position. */
    var offset: Vec3
    /** The manager, a non-serialized reference restored by the editor. */
    var manager: WaypointManager?

    constructor ()
      ensures offset == Zero && manager == null
    {
      offset, manager := Zero, null;
    }

    /** World position: the manager's position plus the offset, or the
        offset alone when no manager is set. */
    function Position(): Vec3
      reads this, manager
    {
      if manager != null then manager.origin.Plus(offset) else offset
    }

    /** Move by a delta, component by component. */
    method UpdatePosition(delta: Vec3)
      modifies this
      ensures offset == old(offset).Plus(delta) && manager == old(manager)
    {
      offset := Vec3(offset.x + delta.x, offset.y + delta.y, offset.z + delta.z);
    }

    /** Take another waypoint's offset; nothing when there is none. */
    method Copy(other: Waypoint?)
      modifies this
      ensures offset == (if other != null then old(other.offset) else old(offset))
      ensures manager == old(manager)
    {
      if other == null {
        return;
      }
      offset := other.offset;
    }

    method SetWaypointManager(m: WaypointManager?)
      modifies this
      ensures manager == m && offset == old(offset)
    {
      manager := m;
    }
  }

  /** No waypoint appears twice. */
  predicate Distinct(ws: seq<Waypoint>)
  {
    forall i, j | 0 <= i < j < |ws| :: ws[i] != ws[j]
  }

  /** List.Insert's accepted indices, or -1 for Add. */
  predicate IndexAccepted(count: int, index: int)
  {
    index == -1 || 0 <= index <= count
  }

  /** AddWaypoint's list: appended at -1, inserted before `index` otherwise. */
  function Added(ws: seq<Waypoint>, index: int, w: Waypoint): (r: seq<Waypoint>)
    requires IndexAccepted(|ws|, index)
    ensures |r| == |ws| + 1 && multiset(r) == multiset(ws) + multiset{w}
    ensures index == -1 ==> r[|ws|] == w && r[..|ws|] == ws
    ensures index != -1 ==> r[index] == w && r[..index] == ws[..index] && r[index + 1..] == ws[index..]
  {
    if index == -1 then ws + [w]
    else
      assert ws == ws[..index] + ws[index..];
      ws[..index] + [w] + ws[index..]
  }

  /** Adding a waypoint not yet in a duplicate-free list keeps it
      duplicate-free, and brings in nothing else. */
  lemma AddedFreshKeepsDistinct(ws: seq<Waypoint>, index: int, w: Waypoint)
    requires Distinct(ws) && w !in ws && IndexAccepted(|ws|, index)
    ensures Distinct(Added(ws, index, w))
    ensures forall v | v in Added(ws, index, w) :: v in ws || v == w
  {
    var r := Added(ws, index, w);
    var at := if index == -1 then |ws| else index;
    assert r[..at] == ws[..at] && r[at] == w && r[at + 1..] == ws[at..];
    forall i | 0 <= i < |r|
      ensures r[i] == (if i < at then ws[i] else if i == at then w else ws[i - 1])
    {
      if i < at {
        assert r[..at][i] == r[i];
      } else if i > at {
        assert r[at + 1..][i - at - 1] == r[i];
      }
    }
    forall v | v in r
      ensures v in ws || v == w
    {
      var i :| 0 <= i < |r| && r[i] == v;
    }
  }

  class WaypointManager {
    var waypoints: seq<Waypoint>
    /** The manager's transform position. */
    var origin: Vec3

    constructor (at: Vec3)
      ensures waypoints == [] && origin == at
    {
      waypoints, origin := [], at;
    }

    /** The list, with every waypoint's manager reference restored. */
    method GetAllWaypoints() returns (ws: seq<Waypoint>)
      requires Distinct(waypoints)
      modifies set w | w in waypoints
      ensures ws == waypoints
      ensures forall w | w in ws :: w.manager == this && w.offset == old(w.offset)
    {
      for i := 0 to |waypoints|
        invariant forall j | 0 <= j < i :: waypoints[j].manager == this
        invariant forall w | w in waypoints :: w.offset == old(w.offset)
      {
        waypoints[i].SetWaypointManager(this);
      }
      return waypoints;
    }

    /** Append (index -1) or insert; an index List.Insert refuses throws,
        which the caller sees as `faulted` with nothing changed. The
        waypoint's manager is set to this one. */
    method AddWaypoint(w: Waypoint, index: int) returns (faulted: bool)
      modifies this, w
      ensures faulted <==> !IndexAccepted(|old(waypoints)|, index)
      ensures faulted ==> waypoints == old(waypoints) && w.manager == old(w.manager)
      ensures !faulted ==> waypoints == Added(old(waypoints), index, w) && w.manager == this
      ensures origin == old(origin) && w.offset == old(w.offset)
    {
      if !IndexAccepted(|waypoints|, index) {
        return true;
      }
      waypoints := Added(waypoints, index, w);
      w.SetWaypointManager(this);
      return false;
    }
  }

  /** One inspector row's interactions: a position typed into the field
      (when it changed), and clicks on Select and Remove. */
  datatype RowInput = RowInput(edit: Option<Vec3>, select: bool, remove: bool)

  /** The Select button: clicking the selected waypoint clears the
      selection, clicking any other selects it. */
  function Toggle(selected: Waypoint?, w: Waypoint): (s: Waypoint?)
    ensures s == null <==> selected == w
    ensures s != null ==> s == w
  {
    if selected == w then null else w
  }

  /** The selection after the first k rows of an inspector pass. */
  function SelectAfterRows(selected: Waypoint?, ws: seq<Waypoint>, rows: seq<RowInput>, k: nat): Waypoint?
    requires k <= |ws| == |rows|
  {
    if k == 0 then selected
    else
      var s := SelectAfterRows(selected, ws, rows, k - 1);
      if rows[k - 1].select then Toggle(s, ws[k - 1]) else s
  }

  /** The row whose Remove was clicked last among the first k, or -1. */
  function LastRemoved(rows: seq<RowInput>, k: nat): (d: int)
    requires k <= |rows|
    ensures -1 <= d < k
    ensures d >= 0 ==> rows[d].remove && forall i | d < i < k :: !rows[i].remove
    ensures d == -1 <==> forall i | 0 <= i < k :: !rows[i].remove
  {
    if k == 0 then -1 else if rows[k - 1].remove then k - 1 else LastRemoved(rows, k - 1)
  }

  /** List.IndexOf: the first position holding w, or -1. */
  function IndexOf(ws: seq<Waypoint>, w: Waypoint): (i: int)
    ensures -1 <= i < |ws|
    ensures i >= 0 ==> ws[i] == w && w !in ws[..i]
    ensures i == -1 <==> w !in ws
  {
    if |ws| == 0 then -1
    else if ws[0] == w then 0
    else
      var j := IndexOf(ws[1..], w);
      assert ws == [ws[0]] + ws[1..];
      if j == -1 then -1
      else
        assert ws[..j + 1] == [ws[0]] + ws[1..][..j];
        j + 1
  }

  /** The removal after the rows: the list without row d, and the
      selection cleared when it was the removed waypoint. */
  datatype Listing = Listing(waypoints: seq<Waypoint>, selected: Waypoint?)

  function Removal(ws: seq<Waypoint>, selected: Waypoint?, d: int): Listing
    requires -1 <= d < |ws|
  {
    if d == -1 then Listing(ws, selected)
    else Listing(ws[..d] + ws[d + 1..], if ws[d] == selected then null else selected)
  }

  /** The rows' typed positions applied to a list's offsets (`before` to
      `after`): a row with a typed position puts its waypoint there, every
      other row's waypoint keeps its offset. */
  predicate EditsApplied(rows: seq<RowInput>, origin: Vec3, before: seq<Vec3>, after: seq<Vec3>)
    requires |rows| == |before| == |after|
  {
    forall i | 0 <= i < |rows| ::
      if rows[i].edit.Some? then origin.Plus(after[i]) == rows[i].edit.value else after[i] == before[i]
  }

  /** The Add button's insert index: one past the selected waypoint, or -1
      (append) when nothing is selected; a selection no longer in the list
      is cleared and the waypoint is appended. */
  function InsertIndex(ws: seq<Waypoint>, selected: Waypoint?): (r: (int, Waypoint?))
  {
    if selected == null then (-1, null)
    else
      var i := IndexOf(ws, selected);
      if i == -1 then (-1, null) else (i + 1, selected)
  }

  /** Removing a waypoint drops exactly that one, keeps the others in
      order, and never leaves it selected; a selection in the list stays
      in the list or is cleared. */
  lemma RemovalDropsOne(ws: seq<Waypoint>, selected: Waypoint?, d: int)
    requires Distinct(ws) && 0 <= d < |ws|
    ensures var r := Removal(ws, selected, d);
      && |r.waypoints| == |ws| - 1
      && ws[d] !in r.waypoints
      && (forall w | w in ws && w != ws[d] :: w in r.waypoints)
      && r.selected != ws[d]
      && (selected in ws ==> r.selected == null || r.selected in r.waypoints)
      && Distinct(r.waypoints)
  {
    var r := Removal(ws, selected, d).waypoints;
    forall w | w in ws && w != ws[d]
      ensures w in r
    {
      var i :| 0 <= i < |ws| && ws[i] == w;
      if i < d {
        assert r[i] == w;
      } else {
        assert r[i - 1] == w;
      }
    }
    forall k | 0 <= k < |r|
      ensures r[k] != ws[d]
    {
      if k < d {
        assert r[k] == ws[k];
      } else {
        assert r[k] == ws[k + 1];
      }
    }
    forall i, j | 0 <= i < j < |r|
      ensures r[i] != r[j]
    {
      var i', j' := if i < d then i else i + 1, if j < d then j else j + 1;
      assert r[i] == ws[i'] && r[j] == ws[j'];
    }
  }

  /** The Add button places the new waypoint right after the selected one,
      or at the end when there is no (current) selection, and the list
      accepts the index. */
  lemma InsertsAfterSelected(ws: seq<Waypoint>, selected: Waypoint?, w: Waypoint)
    ensures var (index, s) := InsertIndex(ws, selected);
      && IndexAccepted(|ws|, index)
      && (s == null <==> selected == null || selected !in ws)
      && (s != null ==> s == selected && index >= 1
                        && Added(ws, index, w)[index - 1] == selected
                        && Added(ws, index, w)[index] == w)
      && (s == null ==> Added(ws, index, w) == ws + [w])
  {
  }

  /** A pass over the inspector keeps the selection inside the list (or
      empty), whatever the rows and the Add button do. */
  lemma {:induction false} RowsKeepSelectionInList(selected: Waypoint?, ws: seq<Waypoint>, rows: seq<RowInput>, k: nat)
    requires k <= |ws| == |rows|
    requires selected == null || selected in ws
    ensures var s := SelectAfterRows(selected, ws, rows, k); s == null || s in ws
  {
    if k > 0 {
      RowsKeepSelectionInList(selected, ws, rows, k - 1);
    }
  }

  /** The selection after clicking cones in the scene view: clicking a
      waypoint that is not selected selects it. */
  function SelectAfterClicks(selected: Waypoint?, ws: seq<Waypoint>, clicks: seq<bool>, k: nat): Waypoint?
    requires k <= |ws| == |clicks|
  {
    if k == 0 then selected
    else
      var s := SelectAfterClicks(selected, ws, clicks, k - 1);
      if s != ws[k - 1] && clicks[k - 1] then ws[k - 1] else s
  }

  /** A waypoint moved by its position handle: it is the selection when
      its turn comes, and the handle reported a new position. */
  predicate MovedByHandle(selected: Waypoint?, ws: seq<Waypoint>, clicks: seq<bool>, handles: seq<Option<Vec3>>, i: nat)
    requires i < |ws| == |clicks| == |handles|
  {
    SelectAfterClicks(selected, ws, clicks, i) == ws[i] && handles[i].Some?
  }

  /** The offsets of a list of waypoints. */
  function Offsets(ws: seq<Waypoint>): (os: seq<Vec3>)
    reads set w | w in ws
    ensures |os| == |ws| && forall i | 0 <= i < |ws| :: os[i] == ws[i].offset
  {
    if |ws| == 0 then [] else Offsets(ws[..|ws| - 1]) + [ws[|ws| - 1].offset]
  }

  /** No waypoint of the pass follows a handle. */
  predicate NoneMoved(selected: Waypoint?, ws: seq<Waypoint>, clicks: seq<bool>, handles: seq<Option<Vec3>>)
    requires |ws| == |clicks| == |handles|
  {
    forall i | 0 <= i < |ws| :: !MovedByHandle(selected, ws, clicks, handles, i)
  }

  /** The index after i in a ring of n. */
  function NextInRing(i: nat, n: nat): nat
  {
    if i + 1 < n then i + 1 else 0
  }

  /** Each line ends where the next one starts, and the last ends where the
      first starts. */
  predicate Ring(lines: seq<(Vec3, Vec3)>)
  {
    forall i | 0 <= i < |lines| :: lines[i].1 == lines[NextInRing(i, |lines|)].0
  }

  /** A scene-view pass in which no handle moved draws a closed ring whose
      lines start at the waypoints' unmoved positions. */
  lemma LinesCloseTheRing(selected: Waypoint?, ws: seq<Waypoint>, clicks: seq<bool>, handles: seq<Option<Vec3>>,
                          origin: Vec3, before: seq<Vec3>, offsets: seq<Vec3>, lines: seq<(Vec3, Vec3)>)
    requires |ws| == |clicks| == |handles| == |before| == |offsets|
    requires DrawnPrefix(selected, ws, clicks, handles, origin, before, offsets, lines, |ws|)
    ensures NoneMoved(selected, ws, clicks, handles) ==>
      Ring(lines) && forall i | 0 <= i < |lines| :: lines[i].0 == origin.Plus(before[i])
  {
    if NoneMoved(selected, ws, clicks, handles) {
      var n := |lines|;
      forall i | 0 <= i < n
        ensures lines[i] == (origin.Plus(before[i]), origin.Plus(before[NextInRing(i, n)]))
      {
        if i == n - 1 {
          assert offsets[i] == before[i] && offsets[0] == before[0];
        }
      }
    }
  }



  /** The scene-view pass after its first `count` waypoints, stated over
      the offsets at the start of the pass (`before`) and now (`offsets`):
      exactly the waypoints selected at their turn with a handle given
      (MovedByHandle) sit at their handles, every other keeps its offset,
      line i joins waypoint i's new position to waypoint i+1's position
      from before the pass, and once every waypoint is drawn the last line
      ends at waypoint 0's new position. */
  predicate DrawnPrefix(selected: Waypoint?, ws: seq<Waypoint>, clicks: seq<bool>, handles: seq<Option<Vec3>>,
                        origin: Vec3, before: seq<Vec3>, offsets: seq<Vec3>, lines: seq<(Vec3, Vec3)>, count: nat)
    requires count <= |ws| == |clicks| == |handles| == |before| == |offsets|
  {
    && |lines| == count
    && (forall i | 0 <= i < count && MovedByHandle(selected, ws, clicks, handles, i) ::
          origin.Plus(offsets[i]) == handles[i].value)
    && (forall i | 0 <= i < |ws| && (count <= i || !MovedByHandle(selected, ws, clicks, handles, i)) ::
          offsets[i] == before[i])
    && (forall i | 0 <= i < count && i < |ws| - 1 ::
          lines[i] == (origin.Plus(offsets[i]), origin.Plus(before[i + 1])))
    && (count == |ws| && count > 0 ==>
          lines[count - 1] == (origin.Plus(offsets[count - 1]), origin.Plus(offsets[0])))
  }

  /** Drawing waypoint `count` (its new offset is v) and its line extends
      the pass by one. */
  lemma DrawStep(selected: Waypoint?, ws: seq<Waypoint>, clicks: seq<bool>, handles: seq<Option<Vec3>>,
                 origin: Vec3, before: seq<Vec3>, offsets: seq<Vec3>, lines: seq<(Vec3, Vec3)>, count: nat, v: Vec3)
    requires count < |ws| == |clicks| == |handles| == |before| == |offsets|
    requires DrawnPrefix(selected, ws, clicks, handles, origin, before, offsets, lines, count)
    requires MovedByHandle(selected, ws, clicks, handles, count) ==> origin.Plus(v) == handles[count].value
    requires !MovedByHandle(selected, ws, clicks, handles, count) ==> v == offsets[count]
    ensures var o := offsets[count := v];
      var next := if count < |ws| - 1 then count + 1 else 0;
      DrawnPrefix(selected, ws, clicks, handles, origin, before, o,
                  lines + [(origin.Plus(o[count]), origin.Plus(o[next]))], count + 1)
  {
  }

  class WaypointEditor {
    const manager: WaypointManager
    var selected: Waypoint?

    /** Every waypoint in the shared list appears once and knows the
        manager. */
    predicate Valid()
      reads this, manager, set w | w in manager.waypoints
    {
      && Distinct(manager.waypoints)
      && forall w | w in manager.waypoints :: w.manager == manager
    }

    /** OnEnable: fetch the manager's list (restoring each manager
        reference); nothing is selected. */
    constructor (m: WaypointManager)
      requires Distinct(m.waypoints)
      modifies set w | w in m.waypoints
      ensures manager == m && selected == null && Valid()
      ensures m.waypoints == old(m.waypoints)
      ensures forall w | w in m.waypoints :: w.offset == old(w.offset)
    {
      manager := m;
      selected := null;
      new;
      var ws := m.GetAllWaypoints();
    }

    /** One inspector pass: the rows (one per waypoint, in list order),
        then at most one removal, then the Add button. */
    method OnInspectorGUI(rows: seq<RowInput>, addClicked: bool) returns (added: Option<Waypoint>)
      requires Valid() && |rows| == |manager.waypoints|
      modifies this, manager, set w | w in manager.waypoints
      ensures Valid() && manager.origin == old(manager.origin)
      ensures var ws := old(manager.waypoints);
        var sel := SelectAfterRows(old(selected), ws, rows, |ws|);
        var r := Removal(ws, sel, LastRemoved(rows, |ws|));
        var (index, s) := InsertIndex(r.waypoints, r.selected);
        && (!addClicked ==> added.None? && manager.waypoints == r.waypoints && selected == r.selected)
        && (addClicked ==>
              && added.Some? && fresh(added.value)
              && manager.waypoints == Added(r.waypoints, index, added.value)
              && selected == added.value
              && added.value.offset == (if s != null then s.offset else Zero))
      ensures EditsApplied(rows, manager.origin, old(Offsets(manager.waypoints)), Offsets(old(manager.waypoints)))
    {
      ghost var ws := manager.waypoints;
      ghost var before := Offsets(ws);
      var delIndex := RowsPass(rows);
      ghost var after := Offsets(ws);
      assert EditsApplied(rows, manager.origin, before, after) by {
        forall i | 0 <= i < |rows| && rows[i].edit.Some?
          ensures manager.origin.Plus(after[i]) == rows[i].edit.value
        {
          assert ws[i].manager == manager;
        }
      }
      added := ApplyButtons(delIndex, addClicked);
      assert Offsets(ws) == after;
    }

    /** The end of the inspector pass: the last Remove clicked (if any) is
        applied, then the Add button. No waypoint already in the list is
        written. */
    method ApplyButtons(delIndex: int, addClicked: bool) returns (added: Option<Waypoint>)
      requires Valid() && -1 <= delIndex < |manager.waypoints|
      modifies this, manager
      ensures Valid() && manager.origin == old(manager.origin)
      ensures var r := Removal(old(manager.waypoints), old(selected), delIndex);
        var (index, s) := InsertIndex(r.waypoints, r.selected);
        && (!addClicked ==> added.None? && manager.waypoints == r.waypoints && selected == r.selected)
        && (addClicked ==>
              && added.Some? && fresh(added.value)
              && manager.waypoints == Added(r.waypoints, index, added.value)
              && selected == added.value
              && added.value.offset == (if s != null then s.offset else Zero))
    {
      if delIndex > -1 {
        RemoveWaypoint(delIndex);
      }
      added := None;
      if addClicked {
        var w := AddClicked();
        added := Some(w);
      }
    }

    /** The rows of the inspector: each row applies its typed position as a
        delta from the current one, and toggles the selection on Select;
        the last Remove clicked is returned. */
    method RowsPass(rows: seq<RowInput>) returns (delIndex: int)
      requires Valid() && |rows| == |manager.waypoints|
      modifies this, set w | w in manager.waypoints
      ensures Valid() && manager.waypoints == old(manager.waypoints)
      ensures selected == SelectAfterRows(old(selected), manager.waypoints, rows, |rows|)
      ensures delIndex == LastRemoved(rows, |rows|)
      ensures forall i | 0 <= i < |rows| ::
        if rows[i].edit.Some? then manager.waypoints[i].Position() == rows[i].edit.value
        else manager.waypoints[i].offset == old(manager.waypoints[i].offset)
    {
      var ws := manager.waypoints;
      delIndex := -1;
      for count := 0 to |ws|
        invariant Valid() && manager.waypoints == ws
        invariant selected == SelectAfterRows(old(selected), ws, rows, count)
        invariant delIndex == LastRemoved(rows, count)
        invariant forall i | 0 <= i < count && rows[i].edit.Some? :: ws[i].Position() == rows[i].edit.value
        invariant forall i | 0 <= i < |ws| && (count <= i || rows[i].edit.None?) :: ws[i].offset == old(ws[i].offset)
      {
        InspectRow(count, rows[count]);
        if rows[count].remove {
          delIndex := count;
        }
      }
    }

    /** One inspector row: a typed position is applied as a delta from the
        current one, and Select toggles the selection; no other waypoint
        moves. */
    method InspectRow(index: nat, row: RowInput)
      requires Valid() && index < |manager.waypoints|
      modifies this, manager.waypoints[index]
      ensures Valid()
      ensures forall j | 0 <= j < |manager.waypoints| && j != index ::
        manager.waypoints[j].offset == old(manager.waypoints[j].offset)
      ensures var w := manager.waypoints[index];
        && (if row.edit.Some? then w.Position() == row.edit.value else w.offset == old(w.offset))
        && selected == (if row.select then Toggle(old(selected), w) else old(selected))
    {
      var current := manager.waypoints[index];
      if row.edit.Some? {
        var previous := current.Position();
        current.UpdatePosition(row.edit.value.Minus(previous));
      }
      if row.select {
        selected := Toggle(selected, current);
      }
    }

    /** Remove the waypoint at d, clearing the selection if it was that
        one. */
    method RemoveWaypoint(d: int)
      requires Valid() && 0 <= d < |manager.waypoints|
      modifies this, manager
      ensures Valid() && manager.origin == old(manager.origin)
      ensures Listing(manager.waypoints, selected) == Removal(old(manager.waypoints), old(selected), d)
    {
      RemovalDropsOne(manager.waypoints, selected, d);
      if manager.waypoints[d] == selected {
        selected := null;
      }
      manager.waypoints := manager.waypoints[..d] + manager.waypoints[d + 1..];
    }

    /** The Add button: a new waypoint copying the selected one's offset
        goes right after it (or at the end), and becomes the selection. */
    method AddClicked() returns (w: Waypoint)
      requires Valid()
      modifies this, manager
      ensures Valid() && fresh(w) && selected == w && manager.origin == old(manager.origin)
      ensures var (index, s) := InsertIndex(old(manager.waypoints), old(selected));
        && manager.waypoints == Added(old(manager.waypoints), index, w)
        && w.offset == (if s != null then s.offset else Zero)
    {
      ghost var ws := manager.waypoints;
      ghost var insert := InsertIndex(ws, selected);
      var index := -1;
      if selected != null {
        index := IndexOf(manager.waypoints, selected);
        if index == -1 {
          selected := null;
        } else {
          index := index + 1;
        }
      }
      assert index == insert.0 && selected == insert.1 && IndexAccepted(|ws|, index);
      w := new Waypoint();
      w.Copy(selected);
      var faulted := manager.AddWaypoint(w, index);
      AddedFreshKeepsDistinct(ws, index, w);
      forall v | v in manager.waypoints
        ensures v.manager == manager
      {
        if v != w {
          assert v in ws;
        }
      }
      selected := w;
    }

    /** One scene-view pass: each waypoint in order is drawn; the selected
        one follows its position handle (`handles`), any other becomes the
        selection when its cone is clicked (`clicks`); then a line joins it
        to the next waypoint, and the last to the first. */
    method DrawAllWaypoints(handles: seq<Option<Vec3>>, clicks: seq<bool>) returns (lines: seq<(Vec3, Vec3)>)
      requires Valid() && |handles| == |clicks| == |manager.waypoints|
      modifies this, set w | w in manager.waypoints
      ensures Valid() && manager.waypoints == old(manager.waypoints) && manager.origin == old(manager.origin)
      ensures selected == SelectAfterClicks(old(selected), manager.waypoints, clicks, |manager.waypoints|)
      ensures DrawnPrefix(old(selected), manager.waypoints, clicks, handles, manager.origin,
                          old(Offsets(manager.waypoints)), Offsets(manager.waypoints), lines, |manager.waypoints|)
      ensures NoneMoved(old(selected), manager.waypoints, clicks, handles) ==> Ring(lines)
    {
      var ws := manager.waypoints;
      var origin := manager.origin;
      ghost var before := Offsets(ws);
      ghost var offsets := before;
      lines := [];
      for count := 0 to |ws|
        invariant Valid() && manager.waypoints == ws && manager.origin == origin
        invariant |offsets| == |ws| && forall i | 0 <= i < |ws| :: ws[i].offset == offsets[i]
        invariant selected == SelectAfterClicks(old(selected), ws, clicks, count)
        invariant DrawnPrefix(old(selected), ws, clicks, handles, origin, before, offsets, lines, count)
      {
        DrawWaypoint(count, handles[count], clicks[count]);
        DrawStep(old(selected), ws, clicks, handles, origin, before, offsets, lines, count, ws[count].offset);
        offsets := offsets[count := ws[count].offset];
        var next := if count < |ws| - 1 then count + 1 else 0;
        var from, to := PositionAt(count), PositionAt(next);
        lines := lines + [(from, to)];
      }
      assert Offsets(ws) == offsets;
      LinesCloseTheRing(old(selected), ws, clicks, handles, origin, before, offsets, lines);
    }

    /** The world position of the waypoint at index i of the shared list. */
    function PositionAt(i: nat): (p: Vec3)
      requires Valid() && i < |manager.waypoints|
      reads this, manager, set w | w in manager.waypoints
      ensures p == manager.origin.Plus(manager.waypoints[i].offset)
    {
      manager.waypoints[i].Position()
    }

    /** The gizmo of the waypoint at `index`: restore its manager reference;
        the selected one moves by the handle's delta, another becomes
        selected when clicked. No other waypoint changes. */
    method DrawWaypoint(index: nat, handle: Option<Vec3>, clicked: bool)
      requires Valid() && index < |manager.waypoints|
      modifies this, manager.waypoints[index]
      ensures Valid()
      ensures forall j | 0 <= j < |manager.waypoints| && j != index ::
        manager.waypoints[j].offset == old(manager.waypoints[j].offset)
      ensures var w := manager.waypoints[index];
        && (old(selected) == w ==>
              && selected == w
              && (if handle.Some? then manager.origin.Plus(w.offset) == handle.value else w.offset == old(w.offset)))
        && (old(selected) != w ==>
              && w.offset == old(w.offset)
              && selected == (if clicked then w else old(selected)))
    {
      var w := manager.waypoints[index];
      w.SetWaypointManager(manager);
      if selected == w {
        if handle.Some? {
          var previous := w.Position();
          w.UpdatePosition(handle.value.Minus(previous));
        }
      } else if clicked {
        selected := w;
      }
    }
  }
}
