/** Line-of-sight detection of the player: a cached player lookup, a coarse
    reject on the angle to the player's centre, then a fan of five rays
    across the player's width, offsets -2..2, the first ray that hits the
    player winning. Angles and ray hits come from the engine and are
    inputs here; the decision skeleton is what is modelled. */
module Detection {
  import opened Unity
  import Level

  /** What Physics.Raycast reported for one sample of the fan. */
  datatype RayResult = Miss | HitOther | HitPlayer

  /** The number of samples in the fan, offsets -2, -1, 0, 1, 2. */
  const FanSize := 5

  /** A sample is cast only when its own angle is within half the view angle. */
  predicate Casts(half: real, sampleAngles: seq<real>, j: int)
    requires 0 <= j < |sampleAngles|
  {
    sampleAngles[j] <= half
  }

  /** A sample finds the player: it is cast and its ray hits the player. */
  predicate Finds(half: real, sampleAngles: seq<real>, rays: seq<RayResult>, j: int)
    requires 0 <= j < |sampleAngles| == |rays|
  {
    Casts(half, sampleAngles, j) && rays[j] == HitPlayer
  }

  /** The first sample from `k` on that finds the player. */
  function FirstHit(half: real, sampleAngles: seq<real>, rays: seq<RayResult>, k: nat): (r: Option<nat>)
    requires |sampleAngles| == |rays| && k <= |rays|
    decreases |rays| - k
    ensures r.Some? ==> k <= r.value < |rays| && Finds(half, sampleAngles, rays, r.value)
    ensures r.Some? ==> forall j | k <= j < r.value :: !Finds(half, sampleAngles, rays, j)
    ensures r.None? <==> forall j | k <= j < |rays| :: !Finds(half, sampleAngles, rays, j)
  {
    if k == |rays| then None
    else if Finds(half, sampleAngles, rays, k) then Some(k)
    else FirstHit(half, sampleAngles, rays, k + 1)
  }

  /** The offsets (sample index - 2) of the samples in [k, stop) whose rays
      are cast, in ascending order. */
  function CastOffsets(half: real, sampleAngles: seq<real>, k: nat, stop: nat): (offsets: seq<int>)
    requires k <= stop <= |sampleAngles|
    decreases stop - k
    ensures forall x | 0 <= x < |offsets| ::
      k <= offsets[x] + 2 < stop && Casts(half, sampleAngles, offsets[x] + 2)
  {
    if k == stop then []
    else if Casts(half, sampleAngles, k) then [k - 2] + CastOffsets(half, sampleAngles, k + 1, stop)
    else CastOffsets(half, sampleAngles, k + 1, stop)
  }

  /** Strictly ascending, so no offset appears twice. */
  predicate Ascending(s: seq<int>)
  {
    forall x, y | 0 <= x < y < |s| :: s[x] < s[y]
  }

  /** The fan casts its samples in ascending order of offset, each once. */
  lemma {:induction false} CastOffsetsAscending(half: real, sampleAngles: seq<real>, k: nat, stop: nat)
    requires k <= stop <= |sampleAngles|
    ensures Ascending(CastOffsets(half, sampleAngles, k, stop))
    decreases stop - k
  {
    if k < stop {
      var offsets := CastOffsets(half, sampleAngles, k, stop);
      var rest := CastOffsets(half, sampleAngles, k + 1, stop);
      CastOffsetsAscending(half, sampleAngles, k + 1, stop);
      if Casts(half, sampleAngles, k) {
        assert offsets == [k - 2] + rest;
        forall x, y | 0 <= x < y < |offsets|
          ensures offsets[x] < offsets[y]
        {
          assert offsets[y] == rest[y - 1] && k + 1 <= rest[y - 1] + 2;
          if x > 0 {
            assert offsets[x] == rest[x - 1];
          }
        }
      }
    }
  }

  /** The fan casts every sample in view. */
  lemma {:induction false} CastOffsetsComplete(half: real, sampleAngles: seq<real>, k: nat, stop: nat)
    requires k <= stop <= |sampleAngles|
    ensures forall j | k <= j < stop && Casts(half, sampleAngles, j) ::
      j - 2 in CastOffsets(half, sampleAngles, k, stop)
    decreases stop - k
  {
    if k < stop {
      CastOffsetsComplete(half, sampleAngles, k + 1, stop);
    }
  }

  /** Appending one sample to the scanned range. */
  lemma {:induction false} CastOffsetsExtend(half: real, sampleAngles: seq<real>, k: nat, stop: nat)
    requires k <= stop < |sampleAngles|
    ensures CastOffsets(half, sampleAngles, k, stop + 1) ==
      CastOffsets(half, sampleAngles, k, stop) + (if Casts(half, sampleAngles, stop) then [stop - 2] else [])
    decreases stop - k
  {
    if k < stop {
      CastOffsetsExtend(half, sampleAngles, k + 1, stop);
    }
  }

  /** The engine's answers for one DetectPlayer call: the angle from the
      detector's forward to the player's centre, then each fan sample's
      angle and ray result, in the order -2..2. */
  datatype Geometry = Geometry(centreAngle: real, sampleAngles: seq<real>, rays: seq<RayResult>)

  predicate WellFormed(g: Geometry)
  {
    |g.sampleAngles| == FanSize && |g.rays| == FanSize
  }

  /** What one DetectPlayer call decides, for a detector whose player is
      known, given half its view angle: no ray when the centre is out of
      view, otherwise the rays up to the first hit, and the player exactly
      when some cast ray hits them. */
  datatype Decision = Decision(found: bool, casts: seq<int>)

  function Decide(half: real, g: Geometry): (d: Decision)
    requires WellFormed(g)
    ensures g.centreAngle > half ==> d == Decision(false, [])
    ensures d.found <==> (g.centreAngle <= half && SomeSampleFinds(half, g))
    ensures forall x | 0 <= x < |d.casts| ::
      -2 <= d.casts[x] <= 2 && Casts(half, g.sampleAngles, d.casts[x] + 2)
  {
    if g.centreAngle > half then Decision(false, [])
    else match FirstHit(half, g.sampleAngles, g.rays, 0)
      case Some(j) =>
        assert Finds(half, g.sampleAngles, g.rays, j);
        Decision(true, CastOffsets(half, g.sampleAngles, 0, j + 1))
      case None =>
        Decision(false, CastOffsets(half, g.sampleAngles, 0, FanSize))
  }

  /** Some sample of the fan is cast and hits the player. */
  predicate SomeSampleFinds(half: real, g: Geometry)
    requires WellFormed(g)
  {
    exists j | 0 <= j < FanSize :: Finds(half, g.sampleAngles, g.rays, j)
  }

  /** When the player is found, the hit is the last ray cast and no
      earlier cast ray hit the player. */
  lemma HitIsLastCast(half: real, g: Geometry)
    requires WellFormed(g) && Decide(half, g).found
    ensures var casts := Decide(half, g).casts;
      |casts| > 0 && g.rays[casts[|casts| - 1] + 2] == HitPlayer
      && forall x | 0 <= x < |casts| - 1 :: g.rays[casts[x] + 2] != HitPlayer
  {
    var j := FirstHit(half, g.sampleAngles, g.rays, 0).value;
    CastOffsetsExtend(half, g.sampleAngles, 0, j);
    var before := CastOffsets(half, g.sampleAngles, 0, j);
    assert Decide(half, g).casts == before + [j - 2];
    forall x | 0 <= x < |before|
      ensures g.rays[before[x] + 2] != HitPlayer
    {
      assert !Finds(half, g.sampleAngles, g.rays, before[x] + 2);
    }
  }

  class PlayerDetector {
    /** The player's transform once found (an engine object handle). */
    var playerTransform: Option<int>
    var maxAngle: real

    constructor ()
      ensures playerTransform == None && maxAngle == 130.0
    {
      playerTransform := None;
      maxAngle := 130.0;
    }

    /** Look the player up in the scene (`inScene`), keeping it when found. */
    method FindAndSetPlayerTransform(inScene: Option<int>) returns (found: bool)
      modifies this
      ensures found <==> inScene.Some?
      ensures playerTransform == (if inScene.Some? then inScene else old(playerTransform))
      ensures maxAngle == old(maxAngle)
    {
      if inScene.Some? {
        playerTransform := inScene;
        return true;
      }
      return false;
    }

    /** Tell the level (if the scene has one) that the player was seen. */
    static method PlayerDetected(level: Level.LevelManager?)
      modifies level
      ensures level != null ==> level.Vars() == Level.Detect(old(level.Vars()))
    {
      if level != null {
        level.PlayerDetected();
      }
    }

    /** The player if in sight: the caller's angle replaces `maxAngle`, the
        player is looked up once and cached, and the fan of rays is cast;
        the level is told only when the player is returned. */
    method DetectPlayer(detectionAngle: real, inScene: Option<int>, g: Geometry,
                        level: Level.LevelManager?) returns (player: Option<int>, casts: seq<int>)
      requires WellFormed(g)
      modifies this, level
      ensures maxAngle == detectionAngle
      ensures playerTransform == (if old(playerTransform).Some? then old(playerTransform) else inScene)
      ensures playerTransform.None? ==> player.None? && casts == []
      ensures playerTransform.Some? ==>
        var d := Decide(detectionAngle / 2.0, g);
        casts == d.casts && (player.Some? <==> d.found)
        && (player.Some? ==> player == playerTransform)
      ensures level != null ==>
        level.Vars() == if player.Some? then Level.Detect(old(level.Vars())) else old(level.Vars())
    {
      maxAngle := detectionAngle;
      casts := [];
      if playerTransform.None? {
        var found := FindAndSetPlayerTransform(inScene);
        if playerTransform.None? {
          return None, [];
        }
      }
      var half := maxAngle / 2.0;
      ghost var cached := playerTransform;
      if g.centreAngle > half {
        return None, [];
      }
      for i := -2 to 3
        invariant casts == CastOffsets(half, g.sampleAngles, 0, i + 2)
        invariant FirstHit(half, g.sampleAngles, g.rays, 0) == FirstHit(half, g.sampleAngles, g.rays, i + 2)
        invariant level != null ==> level.Vars() == old(level.Vars())
        invariant maxAngle == detectionAngle && playerTransform == cached
      {
        CastOffsetsExtend(half, g.sampleAngles, 0, i + 2);
        if g.sampleAngles[i + 2] <= half {
          casts := casts + [i];
          if g.rays[i + 2] == HitPlayer {
            PlayerDetected(level);
            return playerTransform, casts;
          }
        }
      }
      return None, casts;
    }
  }
}
