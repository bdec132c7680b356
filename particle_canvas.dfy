/**
 * The particle scene controller of ParticleCanvas.tsx, without its Three.js
 * plumbing: the particle population, the per-frame step and the one-shot draw
 * guarded by `isAnimatingDrawRef`.
 *
 * Particles live in an array (`particlesRef.current`); the meshes that the
 * source shares between `particlesRef`, `availableParticles` and
 * `selectedForDraw` are addressed here by their index in that array. The
 * pending `setTimeout` of a draw is the `pending` field, holding the array it
 * was started on; `Complete` is that timeout firing, `Step` one
 * `requestAnimationFrame` callback. `Math.random` and `randFloatSpread` are
 * replaced by values handed in by the caller.
 */
module ParticleCanvas {
  import opened Wrappers
  import opened Motion
  import opened DrawSelection

  /** The random start values of one particle. */
  datatype Spawn = Spawn(position: Vec3, velocity: Vec3)

  /** The draw waiting for its timeout: the particles it marked and the numbers it will report. */
  datatype PendingDraw = PendingDraw(
    arena: array<Particle>,
    selected: seq<nat>,
    values: seq<int>,
    delay: int)

  /** `for (let i = 1; i <= maxNumber; i++)` runs this many times. */
  function ParticleCount(maxNumber: int): nat {
    if maxNumber > 0 then maxNumber else 0
  }

  /** `Math.min(numToDraw, availableParticles.length)`. */
  function NumbersToSelect(numToDraw: int, available: nat): int {
    if numToDraw < available then numToDraw else available
  }

  /** How many times the sampling loop runs: a negative count runs it not at all. */
  function SampleCount(numbersToSelect: int): nat {
    if numbersToSelect > 0 then numbersToSelect else 0
  }

  /** `1000 + numbersToSelect * 200` milliseconds. */
  function DrawAnimationTime(numbersToSelect: int): int {
    1000 + numbersToSelect * 200
  }

  /** What the start of a draw does to every particle before sampling. */
  function ClearFlags(q: Particle): Particle {
    q.(isDrawn := false, isBeingDrawn := false)
  }

  /** What the completion of a draw does to every selected particle. */
  function MarkDrawn(q: Particle): Particle {
    q.(isDrawn := true, isBeingDrawn := false)
  }

  /** A pending draw refers to distinct particles of its array and reports their sorted numbers. */
  ghost predicate PendingWellFormed(d: PendingDraw) {
    && (forall k :: 0 <= k < |d.selected| ==> d.selected[k] < d.arena.Length)
    && Distinct(d.selected)
    && d.values == SortAscending(NumbersAt(d.selected))
  }

  /** The numbers a pending draw will report are strictly ascending particle numbers, one per selected particle. */
  lemma PendingValuesAreStrictlyAscending(d: PendingDraw)
    requires PendingWellFormed(d)
    ensures |d.values| == |d.selected|
    ensures StrictlyAscending(d.values)
    ensures forall v :: v in d.values ==> 1 <= v <= d.arena.Length
  {
    forall x | x in d.selected ensures x < d.arena.Length {
      var k :| 0 <= k < |d.selected| && d.selected[k] == x;
    }
    SortedNumbersOfDistinct(d.selected, d.arena.Length);
  }

  class Canvas {
    var particles: array<Particle>
    /** `isAnimatingDrawRef.current` */
    var animatingDraw: bool
    /** The scheduled completion of the draw in flight, if any. */
    var pending: Option<PendingDraw>

    /**
     * The particle at index j carries number j + 1, lies in the box and
     * drifts no faster than it was spawned; the guard is set exactly while
     * a completion is scheduled; and exactly the particles a pending draw on
     * this array selected are frozen.
     */
    ghost predicate Valid()
      reads this, particles
    {
      && (forall j :: 0 <= j < particles.Length ==>
            particles[j].number == j + 1
            && Within(particles[j].position, HalfExtent)
            && Within(particles[j].velocity, DriftHalfExtent))
      && (animatingDraw <==> pending.Some?)
      && (pending.Some? ==> PendingWellFormed(pending.value))
      && (forall j :: 0 <= j < particles.Length ==>
            (particles[j].isBeingDrawn <==>
               pending.Some? && pending.value.arena == particles && j in pending.value.selected))
    }

    /** The refs as the component first renders them: no particles, no draw. */
    constructor ()
      ensures Valid()
      ensures particles.Length == 0 && !animatingDraw && pending == None
    {
      particles := new Particle[0];
      animatingDraw := false;
      pending := None;
    }

    /**
     * The particle part of `initScene`: a fresh list of particles numbered
     * 1..maxNumber in order, unflagged, at the given random start values.
     * The draw guard and any scheduled completion are left as they were.
     */
    method InitScene(maxNumber: int, spawns: seq<Spawn>)
      requires Valid()
      requires |spawns| == ParticleCount(maxNumber)
      requires forall s :: s in spawns ==>
                 Within(s.position, SpawnHalfExtent) && Within(s.velocity, DriftHalfExtent)
      modifies this
      ensures Valid() && fresh(particles)
      ensures particles.Length == ParticleCount(maxNumber)
      ensures forall j :: 0 <= j < particles.Length ==>
                particles[j] == Particle(j + 1, spawns[j].position, spawns[j].velocity, false, false)
      ensures animatingDraw == old(animatingDraw) && pending == old(pending)
    {
      var count := ParticleCount(maxNumber);
      var created := new Particle[count];
      var i := 1;
      while i <= maxNumber
        invariant 1 <= i <= count + 1
        invariant forall j :: 0 <= j < i - 1 ==>
                    created[j] == Particle(j + 1, spawns[j].position, spawns[j].velocity, false, false)
        modifies created
      {
        assert spawns[i - 1] in spawns;
        created[i - 1] := Particle(i, spawns[i - 1].position, spawns[i - 1].velocity, false, false);
        i := i + 1;
      }
      particles := created;
      forall j | 0 <= j < particles.Length
        ensures Within(particles[j].position, HalfExtent) && Within(particles[j].velocity, DriftHalfExtent)
      {
        assert spawns[j] in spawns;
      }
    }

    /**
     * The unmount cleanup, as far as it concerns the model: the particle
     * list is emptied. Neither the guard nor a scheduled completion is
     * touched.
     */
    method Dispose()
      requires Valid()
      modifies this
      ensures Valid() && fresh(particles)
      ensures particles.Length == 0
      ensures animatingDraw == old(animatingDraw) && pending == old(pending)
    {
      particles := new Particle[0];
    }

    /** One animation frame: every particle not being drawn moves and reflects. */
    method Step()
      requires Valid()
      modifies particles
      ensures Valid()
      ensures forall j :: 0 <= j < particles.Length ==> particles[j] == StepParticle(old(particles[j]))
    {
      var i := 0;
      while i < particles.Length
        invariant 0 <= i <= particles.Length
        invariant forall j :: 0 <= j < i ==> particles[j] == StepParticle(old(particles[j]))
        invariant forall j :: i <= j < particles.Length ==> particles[j] == old(particles[j])
      {
        var q := particles[i];
        if !q.isBeingDrawn {
          particles[i] := Advance(q);
        }
        i := i + 1;
      }
    }

    /** The flag reset at the start of a draw. */
    method ClearAllFlags()
      modifies particles
      ensures forall j :: 0 <= j < particles.Length ==> particles[j] == ClearFlags(old(particles[j]))
    {
      var i := 0;
      while i < particles.Length
        invariant 0 <= i <= particles.Length
        invariant forall j :: 0 <= j < i ==> particles[j] == ClearFlags(old(particles[j]))
        invariant forall j :: i <= j < particles.Length ==> particles[j] == old(particles[j])
      {
        particles[i] := ClearFlags(particles[i]);
        i := i + 1;
      }
    }

    /** `particlesRef.current.filter(p => !p.userData.isDrawn)`, as indices. */
    method Available() returns (available: seq<nat>)
      ensures forall x :: x in available <==> 0 <= x < particles.Length && !particles[x].isDrawn
      ensures StrictlyAscending(available)
      ensures (forall j :: 0 <= j < particles.Length ==> !particles[j].isDrawn) ==>
                available == Range(particles.Length)
    {
      available := [];
      var j := 0;
      ghost var allFree := forall k :: 0 <= k < particles.Length ==> !particles[k].isDrawn;
      while j < particles.Length
        invariant 0 <= j <= particles.Length
        invariant forall x :: x in available <==> 0 <= x < j && !particles[x].isDrawn
        invariant StrictlyAscending(available)
        invariant forall k :: 0 <= k < |available| ==> available[k] < j
        invariant allFree ==> available == Range(j)
      {
        if !particles[j].isDrawn {
          available := available + [j];
        }
        j := j + 1;
      }
    }

    /**
     * The sampling loop of a draw over the whole pool: each pick takes one
     * index out of the pool, marks that particle as being drawn and records
     * its number.
     */
    method SampleFrom(available: seq<nat>, numbersToSelect: int, picks: seq<nat>)
      returns (selectedForDraw: seq<nat>, drawnValues: seq<int>)
      requires Distinct(available) && forall x :: x in available ==> x < particles.Length
      requires ValidPicks(picks, |available|) && SampleCount(numbersToSelect) <= |picks|
      requires forall j :: 0 <= j < particles.Length ==> particles[j].number == j + 1
      modifies particles
      ensures selectedForDraw == Sample(available, picks[..SampleCount(numbersToSelect)]).chosen
      ensures drawnValues == NumbersAt(selectedForDraw)
      ensures forall j :: 0 <= j < particles.Length ==>
                particles[j] == old(particles[j]).(isBeingDrawn := old(particles[j]).isBeingDrawn || j in selectedForDraw)
    {
      ghost var count := SampleCount(numbersToSelect);
      var remaining := available;
      selectedForDraw := [];
      drawnValues := [];
      var i := 0;
      while i < numbersToSelect
        invariant 0 <= i <= count
        invariant ValidPicks(picks[..i], |available|)
        invariant Sample(available, picks[..i]) == Selection(selectedForDraw, remaining)
        invariant |drawnValues| == |selectedForDraw|
        invariant forall k :: 0 <= k < |drawnValues| ==> drawnValues[k] == selectedForDraw[k] + 1
        invariant forall j :: 0 <= j < particles.Length ==>
                    particles[j] == old(particles[j]).(isBeingDrawn := old(particles[j]).isBeingDrawn || j in selectedForDraw)
      {
        SampleStep(available, picks, i);
        SampleIsPartition(available, picks[..i]);
        var randomIndex := picks[i];
        var index := remaining[randomIndex];
        assert index in available;
        particles[index] := particles[index].(isBeingDrawn := true);
        selectedForDraw := selectedForDraw + [index];
        drawnValues := drawnValues + [particles[index].number];
        remaining := RemoveAt(remaining, randomIndex);
        i := i + 1;
      }
      assert picks[..i] == picks[..count];
      assert drawnValues == NumbersAt(selectedForDraw);
    }

    /**
     * The draw effect. It starts a draw only when drawing is active, there
     * are particles and no draw is in flight. A started draw resets every
     * particle's flags, takes min(numToDraw, particle count) particles from
     * the whole list by the injected picks, marks them as being drawn and
     * schedules the completion; when there is nothing to take it reports the
     * empty list at once and clears the guard.
     */
    method DrawEffect(isDrawingActive: bool, numToDraw: int, picks: seq<nat>)
      returns (report: Option<seq<int>>)
      requires Valid()
      requires ValidPicks(picks, particles.Length)
      requires NumbersToSelect(numToDraw, particles.Length) <= |picks|
      modifies this, particles
      ensures Valid() && particles == old(particles)
      ensures !(isDrawingActive && particles.Length > 0 && !old(animatingDraw)) ==>
                report == None && animatingDraw == old(animatingDraw) && pending == old(pending)
                && particles[..] == old(particles[..])
      ensures isDrawingActive && particles.Length > 0 && !old(animatingDraw)
                && NumbersToSelect(numToDraw, particles.Length) == 0 ==>
                report == Some([]) && !animatingDraw && pending == None
                && forall j :: 0 <= j < particles.Length ==> particles[j] == ClearFlags(old(particles[j]))
      ensures isDrawingActive && particles.Length > 0 && !old(animatingDraw)
                && NumbersToSelect(numToDraw, particles.Length) != 0 ==>
                var n := NumbersToSelect(numToDraw, particles.Length);
                var used := picks[..SampleCount(n)];
                report == None && animatingDraw
                && pending == Some(PendingDraw(particles, Sample(Range(particles.Length), used).chosen,
                                               DrawResult(particles.Length, used), DrawAnimationTime(n)))
                && forall j :: 0 <= j < particles.Length ==>
                     particles[j] == ClearFlags(old(particles[j])).(isBeingDrawn := j in pending.value.selected)
    {
      report := None;
      if isDrawingActive && particles.Length > 0 && !animatingDraw {
        animatingDraw := true;
        ClearAllFlags();
        var available := Available();
        var numbersToSelect := NumbersToSelect(numToDraw, |available|);
        if numbersToSelect == 0 {
          report := Some([]);
          animatingDraw := false;
          assert Valid() by {
            forall j | 0 <= j < particles.Length
              ensures particles[j].number == j + 1 && !particles[j].isBeingDrawn
              ensures Within(particles[j].position, HalfExtent) && Within(particles[j].velocity, DriftHalfExtent)
            {
              assert particles[j] == ClearFlags(old(particles[j]));
            }
          }
          return;
        }
        RangeIsDistinct(particles.Length);
        ghost var count := SampleCount(numbersToSelect);
        ValidPicksPrefix(picks, particles.Length, count);
        var selectedForDraw, drawnValues := SampleFrom(available, numbersToSelect, picks);
        SampleIsPartition(available, picks[..count]);
        drawnValues := SortAscending(drawnValues);
        pending := Some(PendingDraw(particles, selectedForDraw, drawnValues, DrawAnimationTime(numbersToSelect)));
        assert Valid() by {
          forall j | 0 <= j < particles.Length
            ensures particles[j].number == j + 1
            ensures particles[j].isBeingDrawn <==> j in selectedForDraw
            ensures Within(particles[j].position, HalfExtent) && Within(particles[j].velocity, DriftHalfExtent)
          {
            assert particles[j] == ClearFlags(old(particles[j])).(isBeingDrawn := j in selectedForDraw);
          }
          forall k | 0 <= k < |selectedForDraw| ensures selectedForDraw[k] < particles.Length {
            assert selectedForDraw[k] in available;
          }
        }
      }
    }

    /**
     * The timeout of the draw in flight fires: the particles it selected, in
     * the array it was started on, become drawn and move again; the sorted
     * numbers are reported once and the guard is cleared.
     */
    method Complete() returns (reported: seq<int>)
      requires Valid() && pending.Some?
      modifies this, pending.value.arena
      ensures Valid()
      ensures reported == old(pending.value.values)
      ensures !animatingDraw && pending == None && particles == old(particles)
      ensures var arena := old(pending.value.arena);
        forall j :: 0 <= j < arena.Length ==>
          arena[j] == if j in old(pending.value.selected) then MarkDrawn(old(arena[j])) else old(arena[j])
    {
      var draw := pending.value;
      var arena := draw.arena;
      var i := 0;
      while i < |draw.selected|
        invariant 0 <= i <= |draw.selected|
        invariant forall j :: 0 <= j < arena.Length ==>
                    arena[j] == if j in draw.selected[..i] then MarkDrawn(old(arena[j])) else old(arena[j])
        modifies arena
      {
        var index := draw.selected[i];
        arena[index] := MarkDrawn(arena[index]);
        assert draw.selected[..i + 1] == draw.selected[..i] + [index];
        i := i + 1;
      }
      assert draw.selected[..i] == draw.selected;
      reported := draw.values;
      animatingDraw := false;
      pending := None;
    }
  }
}
