/**
 * The page of page.tsx: its React state, its handlers, and the page wired to
 * the control panel and the particle canvas, so that a draw is one two-party
 * handshake: the page raises `isDrawing`, the canvas samples and later reports
 * through `onNumbersDrawn`, and the page stores the numbers and lowers
 * `isDrawing`.
 */
module CelestialDrawPage {
  import opened Wrappers
  import opened Motion
  import opened DrawSelection
  import opened ParticleCanvas
  import ControlPanel

  const InitialMaxNumber: int := 90
  const InitialNumToDraw: int := 5

  /** The `useState` fields of the page. */
  class Page {
    var isLoading: bool
    var maxNumber: int
    var numToDraw: int
    var drawnNumbers: seq<int>
    var isDrawing: bool

    constructor ()
      ensures isLoading && maxNumber == InitialMaxNumber && numToDraw == InitialNumToDraw
      ensures drawnNumbers == [] && !isDrawing
    {
      isLoading := true;
      maxNumber := InitialMaxNumber;
      numToDraw := InitialNumToDraw;
      drawnNumbers := [];
      isDrawing := false;
    }

    /** `handleDrawStart`: clears the last result and raises `isDrawing`. */
    method HandleDrawStart()
      modifies this
      ensures drawnNumbers == [] && isDrawing
      ensures isLoading == old(isLoading) && maxNumber == old(maxNumber) && numToDraw == old(numToDraw)
    {
      drawnNumbers := [];
      isDrawing := true;
    }

    /** `handleNumbersDrawn`: stores exactly the reported numbers and lowers `isDrawing`. */
    method HandleNumbersDrawn(numbers: seq<int>)
      modifies this
      ensures drawnNumbers == numbers && !isDrawing
      ensures isLoading == old(isLoading) && maxNumber == old(maxNumber) && numToDraw == old(numToDraw)
    {
      drawnNumbers := numbers;
      isDrawing := false;
    }

    /** `handleSceneLoaded`: ends loading and changes nothing else. */
    method HandleSceneLoaded()
      modifies this
      ensures !isLoading
      ensures maxNumber == old(maxNumber) && numToDraw == old(numToDraw)
      ensures drawnNumbers == old(drawnNumbers) && isDrawing == old(isDrawing)
    {
      isLoading := false;
    }

    /** `setMaxNumber` */
    method SetMaxNumber(value: int)
      modifies this
      ensures maxNumber == value
      ensures isLoading == old(isLoading) && numToDraw == old(numToDraw)
      ensures drawnNumbers == old(drawnNumbers) && isDrawing == old(isDrawing)
    {
      maxNumber := value;
    }

    /** `setNumToDraw` */
    method SetNumToDraw(value: int)
      modifies this
      ensures numToDraw == value
      ensures isLoading == old(isLoading) && maxNumber == old(maxNumber)
      ensures drawnNumbers == old(drawnNumbers) && isDrawing == old(isDrawing)
    {
      numToDraw := value;
    }

    /** The results card is shown when there are numbers and no draw runs. */
    predicate ShowResults()
      reads this
    {
      drawnNumbers != [] && !isDrawing
    }
  }

  /** The page with its control panel and its particle canvas. */
  class CelestialDraw {
    const page: Page
    const canvas: Canvas

    /**
     * The canvas invariant; the inputs as the control panel leaves them; one
     * particle per number; `isDrawing` raised exactly while the canvas has a
     * draw in flight, on its current particles and of the requested size.
     */
    ghost predicate Valid()
      reads this, page, canvas, canvas.particles
    {
      && canvas.Valid()
      && !page.isLoading
      && page.maxNumber >= ControlPanel.MaxNumberFloor
      && ControlPanel.NumToDrawFloor <= page.numToDraw <= ControlPanel.NumToDrawCeiling
      && canvas.particles.Length == page.maxNumber
      && (page.isDrawing <==> canvas.animatingDraw)
      && (canvas.pending.Some? ==>
            canvas.pending.value.arena == canvas.particles
            && |canvas.pending.value.selected| == page.numToDraw)
    }

    /**
     * Mounting: initial state, the particle population for 90 numbers,
     * `onSceneLoaded`, and the first animation frame, which the mount effect
     * runs directly after building the scene.
     */
    constructor (spawns: seq<Spawn>)
      requires |spawns| == InitialMaxNumber
      requires forall s :: s in spawns ==>
                 Within(s.position, SpawnHalfExtent) && Within(s.velocity, DriftHalfExtent)
      ensures Valid() && fresh(page) && fresh(canvas) && fresh(canvas.particles)
      ensures !page.isLoading && page.maxNumber == InitialMaxNumber && page.numToDraw == InitialNumToDraw
      ensures page.drawnNumbers == [] && !page.isDrawing && !page.ShowResults()
      ensures forall j :: 0 <= j < canvas.particles.Length ==>
                canvas.particles[j] == StepParticle(Particle(j + 1, spawns[j].position, spawns[j].velocity, false, false))
    {
      var p := new Page();
      var c := new Canvas();
      c.InitScene(p.maxNumber, spawns);
      p.HandleSceneLoaded();
      c.Step();
      page := p;
      canvas := c;
    }

    /** An animation frame of the canvas. */
    method Frame()
      requires Valid()
      modifies canvas.particles
      ensures Valid()
      ensures forall j :: 0 <= j < canvas.particles.Length ==>
                canvas.particles[j] == StepParticle(old(canvas.particles[j]))
    {
      canvas.Step();
    }

    /**
     * A click on the start button. While a draw runs the button is disabled
     * and nothing happens; otherwise the page starts the draw and the canvas,
     * seeing `isDrawingActive`, samples `numToDraw` particles and schedules
     * its report.
     */
    method ClickStartDraw(picks: seq<nat>)
      requires Valid()
      requires ValidPicks(picks, canvas.particles.Length) && page.numToDraw <= |picks|
      modifies page, canvas, canvas.particles
      ensures Valid() && canvas.particles == old(canvas.particles)
      ensures old(page.isDrawing) ==>
                unchanged(page) && unchanged(canvas) && canvas.particles[..] == old(canvas.particles[..])
      ensures !old(page.isDrawing) ==>
                page.isDrawing && page.drawnNumbers == [] && !page.ShowResults()
                && page.maxNumber == old(page.maxNumber) && page.numToDraw == old(page.numToDraw)
                && canvas.pending.Some?
                && canvas.pending.value.values == DrawResult(page.maxNumber, picks[..page.numToDraw])
                && canvas.pending.value.delay == DrawAnimationTime(page.numToDraw)
                && canvas.pending.value.selected == Sample(Range(canvas.particles.Length), picks[..page.numToDraw]).chosen
                && forall j :: 0 <= j < canvas.particles.Length ==>
                     canvas.particles[j]
                     == ClearFlags(old(canvas.particles[j])).(isBeingDrawn := j in canvas.pending.value.selected)
    {
      if ControlPanel.Enabled(page.isDrawing) {
        page.HandleDrawStart();
        var report := canvas.DrawEffect(page.isDrawing, page.numToDraw, picks);
        assert report == None;
      }
    }

    /**
     * The canvas timeout fires while a draw runs: its report reaches
     * `handleNumbersDrawn`, so the page holds `numToDraw` strictly ascending
     * numbers within 1..maxNumber and shows them.
     */
    method TimerFires()
      requires Valid() && page.isDrawing
      modifies page, canvas, canvas.particles
      ensures Valid() && canvas.particles == old(canvas.particles)
      ensures page.drawnNumbers == old(canvas.pending.value.values)
      ensures !page.isDrawing && page.ShowResults()
      ensures |page.drawnNumbers| == page.numToDraw
      ensures StrictlyAscending(page.drawnNumbers)
      ensures forall v :: v in page.drawnNumbers ==> 1 <= v <= page.maxNumber
      ensures page.maxNumber == old(page.maxNumber) && page.numToDraw == old(page.numToDraw)
      ensures forall j :: 0 <= j < canvas.particles.Length ==>
                canvas.particles[j]
                == if j in old(canvas.pending.value.selected) then MarkDrawn(old(canvas.particles[j]))
                   else old(canvas.particles[j])
    {
      PendingValuesAreStrictlyAscending(canvas.pending.value);
      var reported := canvas.Complete();
      page.HandleNumbersDrawn(reported);
    }

    /**
     * An edit of the max-number input. While a draw runs the input is
     * disabled; otherwise the clamped value is stored and, when it differs,
     * the scene is torn down and rebuilt with one particle per number, and
     * the rebuilding effect runs the first animation frame at once. The
     * same value again is dropped like a same-value state update, and the
     * scene is kept.
     */
    method EnterMaxNumber(parsed: Option<int>, spawns: seq<Spawn>)
      requires Valid()
      requires |spawns| == ControlPanel.ClampMaxNumber(parsed)
      requires forall s :: s in spawns ==>
                 Within(s.position, SpawnHalfExtent) && Within(s.velocity, DriftHalfExtent)
      modifies page, canvas
      ensures Valid()
      ensures old(page.isDrawing) ==> unchanged(page) && unchanged(canvas)
      ensures !old(page.isDrawing) ==>
                page.maxNumber == ControlPanel.ClampMaxNumber(parsed)
                && page.numToDraw == old(page.numToDraw) && page.drawnNumbers == old(page.drawnNumbers)
                && !page.isDrawing
      ensures !old(page.isDrawing) && page.maxNumber != old(page.maxNumber) ==>
                fresh(canvas.particles)
                && forall j :: 0 <= j < canvas.particles.Length ==>
                     canvas.particles[j]
                     == StepParticle(Particle(j + 1, spawns[j].position, spawns[j].velocity, false, false))
      ensures !old(page.isDrawing) && page.maxNumber == old(page.maxNumber) ==>
                unchanged(canvas) && canvas.particles[..] == old(canvas.particles[..])
    {
      var change := ControlPanel.MaxNumberChange(page.isDrawing, parsed);
      if change.Some? {
        var previous := page.maxNumber;
        page.SetMaxNumber(change.value);
        if change.value != previous {
          canvas.Dispose();
          canvas.InitScene(page.maxNumber, spawns);
          page.HandleSceneLoaded();
          canvas.Step();
        }
      }
    }

    /** An edit of the numbers-to-draw input; ignored while a draw runs. */
    method EnterNumToDraw(parsed: Option<int>)
      requires Valid()
      modifies page
      ensures Valid()
      ensures old(page.isDrawing) ==> unchanged(page)
      ensures !old(page.isDrawing) ==>
                page.numToDraw == ControlPanel.ClampNumToDraw(parsed)
                && page.maxNumber == old(page.maxNumber) && page.drawnNumbers == old(page.drawnNumbers)
                && !page.isDrawing
    {
      var change := ControlPanel.NumToDrawChange(page.isDrawing, parsed);
      if change.Some? {
        page.SetNumToDraw(change.value);
      }
    }
  }

  /**
   * A whole round seen from outside: start, a second click while the draw
   * runs, frames in between, then the timeout. The page ends with the sorted
   * numbers of the first click's picks, and the second click changed nothing.
   */
  method DrawRound(app: CelestialDraw, picks: seq<nat>, laterPicks: seq<nat>)
    requires app.Valid() && !app.page.isDrawing
    requires ValidPicks(picks, app.canvas.particles.Length) && app.page.numToDraw <= |picks|
    requires ValidPicks(laterPicks, app.canvas.particles.Length) && app.page.numToDraw <= |laterPicks|
    modifies app.page, app.canvas, app.canvas.particles
    ensures app.Valid() && app.page.ShowResults() && app.canvas.particles == old(app.canvas.particles)
    ensures app.page.maxNumber == old(app.page.maxNumber) && app.page.numToDraw == old(app.page.numToDraw)
    ensures app.page.drawnNumbers == DrawResult(app.page.maxNumber, picks[..app.page.numToDraw])
    ensures |app.page.drawnNumbers| == app.page.numToDraw
  {
    app.ClickStartDraw(picks);
    app.Frame();
    app.ClickStartDraw(laterPicks);
    app.Frame();
    app.TimerFires();
  }
}
