/** The single-flight capability cache of one host, as concurrent callers, invalidations and dropped
    callers interleave. A step is one critical section of the state mutex or one action between two. */
module Capability {
  import opened Common

  datatype Outcome = Found(capability: nat) | Failure

  datatype Channel = Pending | Sent(outcome: Outcome) | Closed

  /** `birth` counts the invalidations before the cell was made, `started` those before the start of the
      probe that is to fill it. */
  datatype Cell = Cell(birth: nat, started: Option<nat>, value: Option<nat>)

  /** One probe: the cell it will fill and its followers' channel. */
  datatype Flight = Flight(cell: nat, channel: Channel)

  datatype Phase =
    | Entering
    | Leading(flight: nat)
    | Probing(flight: nat)
    | Probed(flight: nat, outcome: Outcome)
    | Publishing(flight: nat, outcome: Outcome)
    | Following(flight: nat)
    | Cleaning(flight: nat)
    | Returned(cell: nat, outcome: Outcome)

  /** `since` counts the invalidations before the call began; `probes` the times it ran its probe. */
  datatype Caller = Caller(since: nat, phase: Phase, probes: nat)

  datatype World = World(
    epoch: nat,
    entry: Option<nat>,
    inFlight: Option<nat>,
    cells: seq<Cell>,
    flights: seq<Flight>,
    callers: map<nat, Caller>)

  const INITIAL := World(0, None, None, [], [], map[])

  datatype Step =
    | Call(c: nat)
    | Lookup(c: nat)
    | StartProbe(c: nat)
    | EndProbe(c: nat, outcome: Outcome)
    | Remove(c: nat)
    | Send(c: nat)
    | Observe(c: nat)
    | Clean(c: nat)
    | Drop(c: nat)
    | Invalidate

  function At(w: World, c: nat, phase: Phase): World
    requires c in w.callers
  {
    w.(callers := w.callers[c := w.callers[c].(phase := phase)])
  }

  predicate Leads(phase: Phase) {
    phase.Leading? || phase.Probing? || phase.Probed? || phase.Publishing?
  }

  /** A flight is removed only while it, or its cell, is still the current one. */
  function Removed(w: World, flight: nat, removeCell: bool): World
    requires flight < |w.flights|
  {
    w.(entry := if removeCell && w.entry == Some(w.flights[flight].cell) then None else w.entry,
       inFlight := if w.inFlight == Some(flight) then None else w.inFlight)
  }

  function WithCell(w: World): World {
    if w.entry.None? then w.(entry := Some(|w.cells|), cells := w.cells + [Cell(w.epoch, None, None)]) else w
  }

  predicate Next(w: World, step: Step, w': World) {
    match step
    case Call(c) =>
      c !in w.callers && w' == w.(callers := w.callers[c := Caller(w.epoch, Entering, 0)])
    case Lookup(c) =>
      && c in w.callers && w.callers[c].phase.Entering?
      && var u := WithCell(w);
         var cell := u.entry.value;
         && cell < |u.cells|
         && if u.cells[cell].value.Some? then w' == At(u, c, Returned(cell, Found(u.cells[cell].value.value)))
            else if u.inFlight.Some? then w' == At(u, c, Following(u.inFlight.value))
            else
              w' == At(u, c, Leading(|u.flights|)).(
                      inFlight := Some(|u.flights|),
                      flights := u.flights + [Flight(cell, Pending)])
    case StartProbe(c) =>
      && c in w.callers && w.callers[c].phase.Leading?
      && var flight := w.callers[c].phase.flight;
         && flight < |w.flights| && w.flights[flight].cell < |w.cells|
         && var cell := w.flights[flight].cell;
            w' == w.(callers := w.callers[c := Caller(w.callers[c].since, Probing(flight), w.callers[c].probes + 1)],
                     cells := w.cells[cell := w.cells[cell].(started := Some(w.epoch))])
    case EndProbe(c, outcome) =>
      && c in w.callers && w.callers[c].phase.Probing?
      && var flight := w.callers[c].phase.flight;
         && flight < |w.flights| && w.flights[flight].cell < |w.cells|
         && var cell := w.flights[flight].cell;
            w' == At(w, c, Probed(flight, outcome)).(
                    cells := if outcome.Found? && w.cells[cell].value.None?
                             then w.cells[cell := w.cells[cell].(value := Some(outcome.capability))] else w.cells)
    case Remove(c) =>
      && c in w.callers && w.callers[c].phase.Probed?
      && var phase := w.callers[c].phase;
         && phase.flight < |w.flights|
         && w' == At(Removed(w, phase.flight, phase.outcome.Failure?), c, Publishing(phase.flight, phase.outcome))
    case Send(c) =>
      && c in w.callers && w.callers[c].phase.Publishing?
      && var phase := w.callers[c].phase;
         && phase.flight < |w.flights|
         && w' == At(w, c, Returned(w.flights[phase.flight].cell, phase.outcome)).(
                    flights := w.flights[phase.flight := w.flights[phase.flight].(channel := Sent(phase.outcome))])
    case Observe(c) =>
      && c in w.callers && w.callers[c].phase.Following?
      && var flight := w.callers[c].phase.flight;
         && flight < |w.flights| && !w.flights[flight].channel.Pending?
         && w' == At(w, c, match w.flights[flight].channel
                           case Sent(outcome) => Returned(w.flights[flight].cell, outcome)
                           case _ => Cleaning(flight))
    case Clean(c) =>
      && c in w.callers && w.callers[c].phase.Cleaning?
      && w.callers[c].phase.flight < |w.flights|
      && w' == At(Removed(w, w.callers[c].phase.flight, true), c, Entering)
    case Drop(c) =>
      && c in w.callers && !w.callers[c].phase.Returned?
      && var phase := w.callers[c].phase;
         var u := w.(callers := w.callers - {c});
         if Leads(phase) then
           && phase.flight < |w.flights|
           && w' == u.(flights := w.flights[phase.flight := w.flights[phase.flight].(channel := Closed)])
         else w' == u
    case Invalidate =>
      w' == w.(epoch := w.epoch + 1, entry := None, inFlight := None)
  }

  // ----- what holds in every run -----

  /** The caller may still fill its cell. */
  predicate Fills(phase: Phase) {
    phase.Leading? || phase.Probing?
  }

  predicate Concluded(phase: Phase) {
    phase.Probed? || phase.Publishing? || phase.Returned?
  }

  /** The cell holds what was found, if anything was. */
  predicate Filled(cell: Cell, outcome: Outcome) {
    cell.started.Some? && (outcome.Found? ==> cell.value == Some(outcome.capability))
  }

  predicate CellOk(w: World, cell: Cell) {
    && cell.birth <= w.epoch
    && (cell.started.Some? ==> cell.birth <= cell.started.value <= w.epoch)
    && (cell.value.Some? ==> cell.started.Some?)
  }

  predicate FlightOk(w: World, f: nat)
    requires f < |w.flights|
  {
    && w.flights[f].cell < |w.cells|
    && (w.flights[f].channel.Sent? ==> Filled(w.cells[w.flights[f].cell], w.flights[f].channel.outcome))
  }

  /** The cell a caller's answer comes from, once it has one in view. */
  function CellOf(w: World, phase: Phase): Option<nat> {
    if phase.Returned? then Some(phase.cell)
    else if phase.Entering? || phase.Cleaning? then None
    else if phase.flight < |w.flights| then Some(w.flights[phase.flight].cell)
    else None
  }

  predicate CellFits(cell: Cell, phase: Phase) {
    && (Fills(phase) || ((phase.Probed? || phase.Publishing?) && phase.outcome.Failure?) ==> cell.value.None?)
    && (phase.Leading? ==> cell.started.None?)
    && (phase.Probing? ==> cell.started.Some?)
    && (Concluded(phase) ==> Filled(cell, phase.outcome))
  }

  predicate CallerOk(w: World, caller: Caller) {
    && caller.since <= w.epoch
    && caller.probes <= (if caller.phase.Probing? || Concluded(caller.phase) then 1 else 0)
    && (caller.phase.Cleaning? ==>
          caller.phase.flight < |w.flights| && w.flights[caller.phase.flight].channel.Closed?)
    && (!caller.phase.Entering? && !caller.phase.Cleaning? ==>
          && CellOf(w, caller.phase).Some? && CellOf(w, caller.phase).value < |w.cells|
          && caller.since <= w.cells[CellOf(w, caller.phase).value].birth
          && CellFits(w.cells[CellOf(w, caller.phase).value], caller.phase))
    && (Leads(caller.phase) ==> w.flights[caller.phase.flight].channel.Pending?)
  }

  predicate CurrentOk(w: World) {
    && (w.inFlight.Some? ==>
          w.inFlight.value < |w.flights| && w.entry == Some(w.flights[w.inFlight.value].cell))
    && (w.entry.Some? ==>
          && w.entry.value < |w.cells|
          && w.cells[w.entry.value].birth == w.epoch
          && (w.cells[w.entry.value].value.None? ==> w.inFlight.Some?))
  }

  predicate CellsOk(w: World) {
    forall cell :: 0 <= cell < |w.cells| ==> CellOk(w, w.cells[cell])
  }

  predicate FlightsOk(w: World) {
    && (forall f :: 0 <= f < |w.flights| ==> FlightOk(w, f))
    && (forall f, g ::
          0 <= f < |w.flights| && 0 <= g < |w.flights| && w.flights[f].cell == w.flights[g].cell ==> f == g)
  }

  predicate CallersOk(w: World) {
    && (forall c :: c in w.callers ==> CallerOk(w, w.callers[c]))
    && forall c, d ::
         c in w.callers && d in w.callers && SameFlight(w.callers[c].phase, w.callers[d].phase) ==> c == d
  }

  predicate SameFlight(p: Phase, q: Phase) {
    Leads(p) && Leads(q) && p.flight == q.flight
  }

  predicate Inv(w: World) {
    FlightsOk(w) && CallersOk(w) && CurrentOk(w) && CellsOk(w)
  }

  lemma {:induction false} FlightKept(w: World, step: Step, w': World, f: nat)
    requires Inv(w) && Next(w, step, w') && f < |w'.flights|
    ensures FlightOk(w', f)
  {
    assert f < |w.flights| ==> FlightOk(w, f);
    if !step.Invalidate? && step.c in w.callers {
      assert CallerOk(w, w.callers[step.c]);
    }
  }

  lemma {:induction false} CellsKept(w: World, step: Step, w': World, f: nat, g: nat)
    requires Inv(w) && Next(w, step, w')
    requires f < |w'.flights| && g < |w'.flights| && w'.flights[f].cell == w'.flights[g].cell
    ensures f == g
  {
    hide CallersOk, CallerOk;
    assert f < |w.flights| ==> FlightOk(w, f);
    assert g < |w.flights| ==> FlightOk(w, g);
  }

  lemma {:induction false} RecordsKept(w: World, step: Step, w': World)
    requires Inv(w) && Next(w, step, w')
    ensures CellsOk(w')
  {
    hide FlightsOk;
    if !step.Invalidate? && step.c in w.callers {
      assert CallerOk(w, w.callers[step.c]);
    }
  }

  lemma {:induction false} CurrentKept(w: World, step: Step, w': World)
    requires Inv(w) && Next(w, step, w')
    ensures CurrentOk(w')
  {
    hide CellOk, CellsOk;
    if !step.Invalidate? && step.c in w.callers {
      assert CallerOk(w, w.callers[step.c]);
    }
  }

  lemma {:induction false} OtherKeptByProbe(w: World, step: Step, w': World, d: nat)
    requires Inv(w) && Next(w, step, w') && (step.StartProbe? || step.EndProbe?) && d in w'.callers && d != step.c
    ensures CallerOk(w', w'.callers[d])
  {
    hide CurrentOk;
    assert CallerOk(w, w.callers[d]) && CallerOk(w, w.callers[step.c]);
    assert !SameFlight(w.callers[step.c].phase, w.callers[d].phase);
  }

  lemma {:induction false} OtherKept(w: World, step: Step, w': World, c: nat)
    requires Inv(w) && Next(w, step, w') && !step.StartProbe? && !step.EndProbe?
    requires c in w'.callers && (step.Invalidate? || c != step.c)
    ensures CallerOk(w', w'.callers[c])
  {
    hide CurrentOk, FlightsOk, Next, CellFits;
    WorldGrows(w, step, w', c);
    assert CallerOk(w, w.callers[c]);
    if !step.Invalidate? && step.c in w.callers {
      assert CallerOk(w, w.callers[step.c]);
      assert !SameFlight(w.callers[c].phase, w.callers[step.c].phase);
    }
  }

  lemma {:induction false} WorldGrows(w: World, step: Step, w': World, c: nat)
    requires Next(w, step, w') && !step.StartProbe? && !step.EndProbe?
    requires c in w'.callers && (step.Invalidate? || c != step.c)
    ensures c in w.callers && w'.callers[c] == w.callers[c]
    ensures w.cells <= w'.cells && w.epoch <= w'.epoch && |w.flights| <= |w'.flights|
    ensures forall f: nat :: f < |w.flights| ==> w'.flights[f].cell == w.flights[f].cell
    ensures forall f: nat :: f < |w.flights| && w'.flights[f].channel != w.flights[f].channel ==>
              && !step.Invalidate? && step.c in w.callers && Leads(w.callers[step.c].phase)
              && w.callers[step.c].phase.flight == f
  {
  }

  lemma {:induction false} EntererKept(w: World, step: Step, w': World)
    requires Inv(w) && Next(w, step, w') && (step.Call? || step.Lookup?)
    ensures CallerOk(w', w'.callers[step.c])
  {
    assert step.c in w.callers ==> CallerOk(w, w.callers[step.c]);
    if w.entry.Some? && w.entry.value < |w.cells| {
      assert CellOk(w, w.cells[w.entry.value]);
    }
  }

  lemma {:induction false} ProberKept(w: World, step: Step, w': World)
    requires Inv(w) && Next(w, step, w') && (step.StartProbe? || step.EndProbe?)
    ensures CallerOk(w', w'.callers[step.c])
  {
    hide CurrentOk;
    assert CallerOk(w, w.callers[step.c]);
  }

  lemma {:induction false} ActorKept(w: World, step: Step, w': World)
    requires Inv(w) && Next(w, step, w') && (step.Remove? || step.Send? || step.Observe? || step.Clean?)
    ensures CallerOk(w', w'.callers[step.c])
  {
    hide CurrentOk, CellOk;
    assert CallerOk(w, w.callers[step.c]);
    if step.Observe? {
      assert FlightOk(w, w.callers[step.c].phase.flight);
    }
  }

  lemma {:induction false} ActorIs(w: World, step: Step, w': World)
    requires Next(w, step, w') && !step.Invalidate? && step.c in w'.callers
    ensures !step.Drop?
  {
  }

  lemma {:induction false} LeadersKept(w: World, step: Step, w': World, c: nat, d: nat)
    requires Inv(w) && Next(w, step, w') && c in w'.callers && d in w'.callers
    requires SameFlight(w'.callers[c].phase, w'.callers[d].phase)
    ensures c == d
  {
    hide FlightsOk, CurrentOk, Next, CellFits;
    LeaderBefore(w, step, w', c);
    LeaderBefore(w, step, w', d);
    assert c in w.callers ==> CallerOk(w, w.callers[c]);
    assert d in w.callers ==> CallerOk(w, w.callers[d]);
  }

  lemma {:induction false} LeaderBefore(w: World, step: Step, w': World, c: nat)
    requires Next(w, step, w') && c in w'.callers && Leads(w'.callers[c].phase)
    ensures c in w.callers
    ensures
      || (Leads(w.callers[c].phase) && w.callers[c].phase.flight == w'.callers[c].phase.flight)
      || (step == Lookup(c) && w'.callers[c].phase.flight == |w.flights|)
  {
  }

  lemma {:induction false} InvKept(w: World, step: Step, w': World)
    requires Inv(w) && Next(w, step, w')
    ensures Inv(w')
  {
    hide CallerOk, Inv, Next, CurrentOk, CellsOk;
    forall f: nat | f < |w'.flights| ensures FlightOk(w', f) {
      FlightKept(w, step, w', f);
    }
    forall f: nat, g: nat | f < |w'.flights| && g < |w'.flights| && w'.flights[f].cell == w'.flights[g].cell
      ensures f == g
    {
      CellsKept(w, step, w', f, g);
    }
    CurrentKept(w, step, w');
    RecordsKept(w, step, w');
    forall c | c in w'.callers ensures CallerOk(w', w'.callers[c]) {
      if (step.Call? || step.Lookup?) && c == step.c {
        EntererKept(w, step, w');
      } else if (step.StartProbe? || step.EndProbe?) && c == step.c {
        ProberKept(w, step, w');
      } else if !step.Invalidate? && c == step.c {
        ActorIs(w, step, w');
        ActorKept(w, step, w');
      } else if step.StartProbe? || step.EndProbe? {
        OtherKeptByProbe(w, step, w', c);
      } else {
        OtherKept(w, step, w', c);
      }
    }
    forall c, d |
      c in w'.callers && d in w'.callers && SameFlight(w'.callers[c].phase, w'.callers[d].phase)
      ensures c == d
    {
      LeadersKept(w, step, w', c, d);
    }
    Assemble(w');
  }

  lemma {:induction false} Assemble(w: World)
    requires FlightsOk(w) && CallersOk(w) && CurrentOk(w) && CellsOk(w)
    ensures Inv(w)
  {
  }

  // ----- losing a result -----

  /** A follower of a dropped leader throws away a cell that is filled and still current. */
  predicate Discards(w: World, step: Step) {
    && step.Clean? && step.c in w.callers && w.callers[step.c].phase.Cleaning?
    && var flight := w.callers[step.c].phase.flight;
       && flight < |w.flights| && w.flights[flight].cell < |w.cells|
       && w.entry == Some(w.flights[flight].cell) && w.cells[w.flights[flight].cell].value.Some?
  }

  /** A result that lookups find stays findable except for an invalidation and for such a step. */
  lemma {:induction false} ResultIsLostIff(w: World, step: Step, w': World)
    requires Inv(w) && Next(w, step, w')
    requires w.entry.Some? && w.entry.value < |w.cells| && w.cells[w.entry.value].value.Some?
    ensures w'.entry != w.entry <==> step.Invalidate? || Discards(w, step)
    ensures w'.entry == w.entry ==>
              && w.entry.value < |w'.cells| && w'.cells[w.entry.value].value == w.cells[w.entry.value].value
  {
    if !step.Invalidate? && step.c in w.callers {
      assert CallerOk(w, w.callers[step.c]);
    }
  }

  /** After it, the next lookup finds nothing and is admitted to probe again. */
  lemma {:induction false} DiscardReopens(w: World, step: Step, w': World, c: nat, w'': World)
    requires Inv(w) && Next(w, step, w') && Discards(w, step) && Next(w', Lookup(c), w'')
    ensures w''.callers[c].phase == Leading(|w.flights|)
  {
  }

  // ----- at most one caller can fill -----

  function BirthOf(w: World, f: nat): nat
    requires f < |w.flights| && w.flights[f].cell < |w.cells|
  {
    w.cells[w.flights[f].cell].birth
  }

  /** A flight that may still be filled is the last of its birth, and current until an invalidation. */
  predicate FillerOk(w: World, phase: Phase)
    requires forall f :: 0 <= f < |w.flights| ==> w.flights[f].cell < |w.cells|
  {
    Fills(phase) ==>
      && phase.flight < |w.flights|
      && (BirthOf(w, phase.flight) == w.epoch ==> w.entry == Some(w.flights[phase.flight].cell))
      && forall g :: phase.flight < g < |w.flights| ==> BirthOf(w, g) != BirthOf(w, phase.flight)
  }

  predicate FillersOk(w: World) {
    && (forall f :: 0 <= f < |w.flights| ==> w.flights[f].cell < |w.cells|)
    && forall c :: c in w.callers ==> FillerOk(w, w.callers[c].phase)
  }

  /** Flights keep their cells and cells their births; at most one flight is new, of the present birth. */
  lemma {:induction false} FlightsStay(w: World, step: Step, w': World)
    requires Inv(w) && Next(w, step, w')
    ensures w.epoch <= w'.epoch && |w.flights| <= |w'.flights| <= |w.flights| + 1 && |w.cells| <= |w'.cells|
    ensures forall f: nat :: f < |w.flights| ==> w'.flights[f].cell == w.flights[f].cell < |w.cells|
    ensures forall cell: nat :: cell < |w.cells| ==>
              && w'.cells[cell].birth == w.cells[cell].birth
              && (w.cells[cell].started.Some? ==> w'.cells[cell].started == w.cells[cell].started)
              && (w.cells[cell].value.Some? ==> w'.cells[cell].value == w.cells[cell].value)
    ensures |w'.flights| > |w.flights| ==>
              && step.Lookup? && w'.epoch == w.epoch && w'.entry == Some(w'.flights[|w.flights|].cell)
              && (w.entry.Some? ==> w.entry.value < |w.cells| && w.cells[w.entry.value].value.None? && w.inFlight.None?)
              && w'.flights[|w.flights|].cell < |w'.cells| && BirthOf(w', |w.flights|) == w.epoch
  {
    if !step.Invalidate? && step.c in w.callers {
      assert CallerOk(w, w.callers[step.c]);
    }
    forall f: nat | f < |w.flights| ensures w'.flights[f].cell == w.flights[f].cell < |w.cells| {
      assert FlightOk(w, f);
    }
  }

  lemma {:induction false} FillerBefore(w: World, step: Step, w': World, c: nat)
    requires Next(w, step, w') && c in w'.callers && Fills(w'.callers[c].phase)
    ensures c in w.callers
    ensures
      || (Fills(w.callers[c].phase) && w.callers[c].phase.flight == w'.callers[c].phase.flight)
      || (step == Lookup(c) && w'.callers[c].phase.flight == |w.flights| < |w'.flights|)
  {
  }

  lemma {:induction false} FillerKept(w: World, step: Step, w': World, c: nat)
    requires Inv(w) && FillersOk(w) && Next(w, step, w') && c in w'.callers
    requires forall f :: 0 <= f < |w'.flights| ==> w'.flights[f].cell < |w'.cells|
    ensures FillerOk(w', w'.callers[c].phase)
  {
    if Fills(w'.callers[c].phase) {
      hide CallerOk, FlightsOk, Next;
      FlightsStay(w, step, w');
      FillerBefore(w, step, w', c);
      assert FillerOk(w, w.callers[c].phase);
      var f := w'.callers[c].phase.flight;
      if f < |w.flights| {
        assert CellOk(w, w.cells[w.flights[f].cell]) && BirthOf(w', f) == BirthOf(w, f);
        if BirthOf(w, f) == w.epoch {
          CurrentStays(w, step, w', c);
        }
        forall g | f < g < |w'.flights| ensures BirthOf(w', g) != BirthOf(w', f) {
          assert g < |w.flights| ==> BirthOf(w', g) == BirthOf(w, g);
        }
      }
    }
  }

  /** Only an invalidation takes the place of a flight that may still be filled. */
  lemma {:induction false} CurrentStays(w: World, step: Step, w': World, c: nat)
    requires Inv(w) && Next(w, step, w') && c in w.callers && c in w'.callers
    requires Fills(w.callers[c].phase) && Fills(w'.callers[c].phase)
    requires w.callers[c].phase.flight == w'.callers[c].phase.flight < |w.flights|
    requires w.entry == Some(w.flights[w.callers[c].phase.flight].cell)
    ensures if step.Invalidate? then w'.epoch > w.epoch else w'.entry == w.entry
    ensures |w'.flights| == |w.flights|
  {
    assert CallerOk(w, w.callers[c]);
    if !step.Invalidate? && step.c in w.callers {
      assert CallerOk(w, w.callers[step.c]);
      assert SameFlight(w.callers[step.c].phase, w.callers[c].phase) ==> step.c == c;
    }
  }

  lemma {:induction false} FillersKept(w: World, step: Step, w': World)
    requires Inv(w) && FillersOk(w) && Next(w, step, w')
    ensures FillersOk(w')
  {
    hide Inv, Next, FillerOk;
    InvKept(w, step, w');
    CellsExist(w');
    forall c | c in w'.callers ensures FillerOk(w', w'.callers[c].phase) {
      FillerKept(w, step, w', c);
    }
  }

  lemma {:induction false} CellsExist(w: World)
    requires Inv(w)
    ensures forall f :: 0 <= f < |w.flights| ==> w.flights[f].cell < |w.cells|
  {
    forall f | 0 <= f < |w.flights| ensures w.flights[f].cell < |w.cells| {
      assert FlightOk(w, f);
    }
  }

  // ----- runs -----

  ghost predicate IsRun(run: seq<World>, steps: seq<Step>) {
    && |run| == |steps| + 1
    && run[0] == INITIAL
    && forall i {:trigger steps[i]} :: 0 <= i < |steps| ==> Next(run[i], steps[i], run[i + 1])
  }

  lemma {:induction false} Reachable(run: seq<World>, steps: seq<Step>, n: nat)
    requires IsRun(run, steps) && n < |run|
    ensures Inv(run[n]) && FillersOk(run[n])
  {
    hide Next, Inv, FillersOk;
    if n == 0 {
      InitialInv();
    } else {
      Reachable(run, steps, n - 1);
      assert Next(run[n - 1], steps[n - 1], run[n]);
      InvKept(run[n - 1], steps[n - 1], run[n]);
      FillersKept(run[n - 1], steps[n - 1], run[n]);
    }
  }

  lemma {:induction false} InitialInv()
    ensures Inv(INITIAL) && FillersOk(INITIAL)
  {
  }

  /** Between two states of a run, what exists stays as `FlightsStay` says. */
  lemma {:induction false} RunStays(run: seq<World>, steps: seq<Step>, m: nat, n: nat)
    requires IsRun(run, steps) && m <= n < |run|
    ensures run[m].epoch <= run[n].epoch && |run[m].flights| <= |run[n].flights| && |run[m].cells| <= |run[n].cells|
    ensures forall f: nat :: f < |run[m].flights| ==> run[n].flights[f].cell == run[m].flights[f].cell < |run[m].cells|
    ensures forall cell: nat :: cell < |run[m].cells| ==>
              && run[n].cells[cell].birth == run[m].cells[cell].birth
              && (run[m].cells[cell].started.Some? ==> run[n].cells[cell].started == run[m].cells[cell].started)
              && (run[m].cells[cell].value.Some? ==> run[n].cells[cell].value == run[m].cells[cell].value)
    decreases n
  {
    hide Next, Inv, FillersOk;
    Reachable(run, steps, m);
    CellsExist(run[m]);
    if m < n {
      RunStays(run, steps, m, n - 1);
      Reachable(run, steps, n - 1);
      assert Next(run[n - 1], steps[n - 1], run[n]);
      FlightsStay(run[n - 1], steps[n - 1], run[n]);
    }
  }

  // ----- freshness -----

  /** Whatever is dropped or invalidated, an answer, be it a capability or a failure, is that of a probe
      which started after every invalidation that preceded the call; and a call runs its probe at most
      once. */
  lemma {:induction false} AnswersAreFresh(run: seq<World>, steps: seq<Step>, n: nat, c: nat)
    requires IsRun(run, steps) && n < |run| && c in run[n].callers
    ensures run[n].callers[c].probes <= 1
    ensures var phase := run[n].callers[c].phase;
            phase.Returned? ==>
              && phase.cell < |run[n].cells|
              && run[n].cells[phase.cell].started.Some?
              && run[n].callers[c].since <= run[n].cells[phase.cell].started.value
              && (phase.outcome.Found? ==> run[n].cells[phase.cell].value == Some(phase.outcome.capability))
  {
    Reachable(run, steps, n);
    assert CallerOk(run[n], run[n].callers[c]);
  }

  /** The caller `c` takes the step for the flight of `cell`. */
  predicate ActsOn(w: World, c: nat, cell: nat) {
    c in w.callers && Fills(w.callers[c].phase) && CellOf(w, w.callers[c].phase) == Some(cell)
  }

  /** What a cell records as the start of its probe is the epoch in which that probe was started. */
  lemma {:induction false} StartIsRecorded(run: seq<World>, steps: seq<Step>, n: nat, cell: nat) returns (m: nat)
    requires IsRun(run, steps) && n < |run| && cell < |run[n].cells| && run[n].cells[cell].started.Some?
    ensures m < n && steps[m].StartProbe? && ActsOn(run[m], steps[m].c, cell)
    ensures run[m].epoch == run[n].cells[cell].started.value
  {
    assert n > 0;
    Reachable(run, steps, n - 1);
    var w, step := run[n - 1], steps[n - 1];
    assert Next(w, step, run[n]);
    if cell < |w.cells| && w.cells[cell].started.Some? {
      FlightsStay(w, step, run[n]);
      m := StartIsRecorded(run, steps, n - 1, cell);
    } else {
      m := n - 1;
    }
  }

  /** A filled cell was filled by the end of one successful probe. */
  lemma {:induction false} FilledBy(run: seq<World>, steps: seq<Step>, n: nat, cell: nat) returns (m: nat)
    requires IsRun(run, steps) && n < |run| && cell < |run[n].cells| && run[n].cells[cell].value.Some?
    ensures m < n && Succeeds(steps[m]) && ActsOn(run[m], steps[m].c, cell)
    ensures steps[m].outcome.capability == run[n].cells[cell].value.value
  {
    assert n > 0;
    Reachable(run, steps, n - 1);
    var w, step := run[n - 1], steps[n - 1];
    assert Next(w, step, run[n]);
    if cell < |w.cells| && w.cells[cell].value.Some? {
      FlightsStay(w, step, run[n]);
      m := FilledBy(run, steps, n - 1, cell);
    } else {
      m := n - 1;
    }
  }

  /** The end of a probe for `cell`, with `outcome`. */
  predicate Ends(w: World, step: Step, cell: nat, outcome: Outcome) {
    step.EndProbe? && step.outcome == outcome && ActsOn(w, step.c, cell)
  }

  /** An answer, be it a capability or a failure, is the outcome of one probe that ended before, for the cell
      the answer is from. */
  lemma {:induction false} AnswersAreProbed(run: seq<World>, steps: seq<Step>, n: nat, c: nat) returns (m: nat)
    requires IsRun(run, steps) && n < |run| && c in run[n].callers && Concluded(run[n].callers[c].phase)
    ensures CellOf(run[n], run[n].callers[c].phase).Some?
    ensures var phase := run[n].callers[c].phase;
            m < n && Ends(run[m], steps[m], CellOf(run[n], phase).value, phase.outcome)
    decreases n, 1
  {
    assert n > 0;
    Reachable(run, steps, n - 1);
    var w, step, w' := run[n - 1], steps[n - 1], run[n];
    assert Next(w, step, w');
    hide Inv, FillersOk, Next, Origin;
    OriginIs(w, step, w', c);
    match Origin(w, step, w', c)
    case Stays => m := AnswersAreProbed(run, steps, n - 1, c);
    case Ended => m := n - 1;
    case Cached => m := FilledBy(run, steps, n, w'.callers[c].phase.cell);
    case Watched(f) => m := SentOutcomeIsProbed(run, steps, n - 1, f);
  }

  datatype Source = Stays | Ended | Cached | Watched(flight: nat)

  /** Where the outcome a caller has after a step is from. */
  function Origin(w: World, step: Step, w': World, c: nat): Source {
    if c in w.callers && Concluded(w.callers[c].phase) then Stays
    else if step.EndProbe? then Ended
    else if step.Observe? && c in w.callers && w.callers[c].phase.Following? then Watched(w.callers[c].phase.flight)
    else Cached
  }

  lemma {:induction false} OutcomeStays(w: World, step: Step, w': World, c: nat)
    requires Inv(w) && Next(w, step, w') && c in w'.callers && (step.Invalidate? || step.c != c)
    ensures c in w.callers && w'.callers[c] == w.callers[c]
    ensures Concluded(w.callers[c].phase) ==>
              CellOf(w, w.callers[c].phase).Some? && CellOf(w', w.callers[c].phase) == CellOf(w, w.callers[c].phase)
  {
    CallerStays(w, step, w', c);
    FlightsStay(w, step, w');
    hide Next, CurrentOk, CellsOk, FlightsOk;
    assert CallerOk(w, w.callers[c]);
  }

  lemma {:induction false} CallerStays(w: World, step: Step, w': World, c: nat)
    requires Next(w, step, w') && c in w'.callers && (step.Invalidate? || step.c != c)
    ensures c in w.callers && w'.callers[c] == w.callers[c]
  {
  }

  /** What `Origin` says of the outcome of a caller that has one. */
  predicate OriginatesIn(w: World, step: Step, w': World, c: nat, source: Source) {
    && c in w'.callers && Concluded(w'.callers[c].phase)
    && var phase := w'.callers[c].phase;
       && CellOf(w', phase).Some?
       && match source
          case Stays =>
            && c in w.callers && Concluded(w.callers[c].phase)
            && CellOf(w, w.callers[c].phase) == CellOf(w', phase) && w.callers[c].phase.outcome == phase.outcome
          case Ended => Ends(w, step, CellOf(w', phase).value, phase.outcome)
          case Cached =>
            && phase.Returned? && phase.cell < |w'.cells| && w'.cells[phase.cell].value.Some?
            && phase.outcome == Found(w'.cells[phase.cell].value.value)
          case Watched(f) =>
            && f < |w.flights| && w.flights[f].channel == Sent(phase.outcome)
            && CellOf(w', phase) == Some(w.flights[f].cell)
  }

  lemma {:induction false} ActorOrigin(w: World, step: Step, w': World)
    requires Inv(w) && Next(w, step, w') && !step.Invalidate? && step.c in w'.callers
    requires Concluded(w'.callers[step.c].phase)
    ensures OriginatesIn(w, step, w', step.c, Origin(w, step, w', step.c))
  {
    if step.c in w.callers {
      assert CallerOk(w, w.callers[step.c]);
    }
    hide Inv;
  }

  lemma {:induction false} OriginIs(w: World, step: Step, w': World, c: nat)
    requires Inv(w) && Next(w, step, w') && c in w'.callers && Concluded(w'.callers[c].phase)
    ensures OriginatesIn(w, step, w', c, Origin(w, step, w', c))
  {
    hide Inv, Next;
    if step.Invalidate? || step.c != c {
      OutcomeStays(w, step, w', c);
    } else {
      ActorOrigin(w, step, w');
    }
  }

  /** What a flight sends is the outcome of a probe for its cell. */
  lemma {:induction false} SentOutcomeIsProbed(run: seq<World>, steps: seq<Step>, n: nat, f: nat) returns (m: nat)
    requires IsRun(run, steps) && n < |run| && f < |run[n].flights| && run[n].flights[f].channel.Sent?
    ensures m < n && Ends(run[m], steps[m], run[n].flights[f].cell, run[n].flights[f].channel.outcome)
    decreases n, 0
  {
    assert n > 0;
    Reachable(run, steps, n - 1);
    var w, step, w' := run[n - 1], steps[n - 1], run[n];
    assert Next(w, step, w');
    FlightsStay(w, step, w');
    hide Inv, FillersOk;
    if f < |w.flights| && w.flights[f].channel.Sent? {
      m := SentOutcomeIsProbed(run, steps, n - 1, f);
    } else {
      m := AnswersAreProbed(run, steps, n - 1, step.c);
    }
  }

  // ----- agreement -----

  predicate Succeeds(step: Step) {
    step.EndProbe? && step.outcome.Found?
  }

  /** A flight that nobody may fill any more is never filled again. */
  lemma {:induction false} NeverAgain(run: seq<World>, steps: seq<Step>, m: nat, n: nat, f: nat)
    requires IsRun(run, steps) && m <= n < |run| && f < |run[m].flights|
    requires forall c :: c in run[m].callers ==>
      !(Fills(run[m].callers[c].phase) && run[m].callers[c].phase.flight == f)
    ensures forall c :: c in run[n].callers ==> !(Fills(run[n].callers[c].phase) && run[n].callers[c].phase.flight == f)
    decreases n
  {
    hide Next;
    if m < n {
      NeverAgain(run, steps, m, n - 1, f);
      RunStays(run, steps, m, n - 1);
      assert Next(run[n - 1], steps[n - 1], run[n]);
      forall c | c in run[n].callers
        ensures !(Fills(run[n].callers[c].phase) && run[n].callers[c].phase.flight == f)
      {
        if Fills(run[n].callers[c].phase) {
          FillerBefore(run[n - 1], steps[n - 1], run[n], c);
        }
      }
    }
  }

  /** A result that is current at `m` and no longer at `n`, with no invalidation between, was discarded. */
  lemma {:induction false} LostBetween(run: seq<World>, steps: seq<Step>, m: nat, n: nat, cell: nat) returns (l: nat)
    requires IsRun(run, steps) && m <= n < |run| && run[m].epoch == run[n].epoch
    requires cell < |run[m].cells| && run[m].entry == Some(cell) && run[m].cells[cell].value.Some?
    requires run[n].entry != Some(cell)
    ensures m <= l < n && Discards(run[l], steps[l])
    decreases n - m
  {
    hide Inv, Discards;
    assert m < n;
    Reachable(run, steps, m);
    assert Next(run[m], steps[m], run[m + 1]);
    RunStays(run, steps, m, m + 1);
    RunStays(run, steps, m + 1, n);
    ResultIsLostIff(run[m], steps[m], run[m + 1]);
    if run[m + 1].entry == Some(cell) {
      l := LostBetween(run, steps, m + 1, n, cell);
    } else {
      l := m;
    }
  }

  /** The step at which a flight is admitted. */
  lemma {:induction false} AdmittedAt(run: seq<World>, steps: seq<Step>, m: nat, n: nat, g: nat) returns (l: nat)
    requires IsRun(run, steps) && m <= n < |run| && |run[m].flights| <= g < |run[n].flights|
    ensures m <= l < n && g == |run[l].flights| < |run[l + 1].flights|
    decreases n - m
  {
    hide Next, Inv;
    assert m < n;
    Reachable(run, steps, m);
    assert Next(run[m], steps[m], run[m + 1]);
    FlightsStay(run[m], steps[m], run[m + 1]);
    if g < |run[m + 1].flights| {
      l := m;
    } else {
      l := AdmittedAt(run, steps, m + 1, n, g);
    }
  }

  /** Once a probe has succeeded, nobody fills a flight of the same birth that was already admitted. */
  lemma {:induction false} OldFlightIsDone(run: seq<World>, steps: seq<Step>, i: nat, j: nat, p: nat, g: nat)
    requires IsRun(run, steps) && i < j < |run| && Succeeds(steps[i]) && ActsOn(run[i], steps[i].c, p)
    requires g < |run[i].flights| && run[i].flights[g].cell < |run[i].cells| && p < |run[i].cells|
    requires BirthOf(run[i], g) == run[i].cells[p].birth
    ensures forall e :: e in run[j].callers ==> !(Fills(run[j].callers[e].phase) && run[j].callers[e].phase.flight == g)
  {
    hide Inv, FillerOk;
    Reachable(run, steps, i);
    var w, w', c := run[i], run[i + 1], steps[i].c;
    assert Next(w, steps[i], w');
    FlightsStay(w, steps[i], w');
    forall e | e in w'.callers ensures !(Fills(w'.callers[e].phase) && w'.callers[e].phase.flight == g) {
      if Fills(w'.callers[e].phase) {
        FillerBefore(w, steps[i], w', e);
        FillersDiffer(w, c, e);
      }
    }
    NeverAgain(run, steps, i + 1, j, g);
  }

  lemma {:induction false} FillersDiffer(w: World, c: nat, e: nat)
    requires Inv(w) && FillersOk(w) && c in w.callers && e in w.callers && c != e
    requires Fills(w.callers[c].phase) && Fills(w.callers[e].phase)
    ensures w.callers[c].phase.flight < |w.flights| && w.callers[e].phase.flight < |w.flights|
    ensures BirthOf(w, w.callers[c].phase.flight) != BirthOf(w, w.callers[e].phase.flight)
  {
    assert FillerOk(w, w.callers[c].phase) && FillerOk(w, w.callers[e].phase);
    assert SameFlight(w.callers[c].phase, w.callers[e].phase) ==> c == e;
  }

  /** A flight admitted after a success of the same birth finds the result gone. */
  lemma {:induction false} DiscardedFor(run: seq<World>, steps: seq<Step>, i: nat, m: nat, p: nat) returns (l: nat)
    requires IsRun(run, steps) && i < m < |steps| && Succeeds(steps[i]) && ActsOn(run[i], steps[i].c, p)
    requires |run[m].flights| < |run[m + 1].flights| && p < |run[i].cells| && run[m].epoch == run[i].cells[p].birth
    ensures i < l < m && Discards(run[l], steps[l])
  {
    hide Inv, Discards;
    Reachable(run, steps, i);
    Reachable(run, steps, m);
    assert Next(run[i], steps[i], run[i + 1]) && Next(run[m], steps[m], run[m + 1]);
    RunStays(run, steps, i, i + 1);
    RunStays(run, steps, i + 1, m);
    SuccessIsCurrent(run[i], steps[i], run[i + 1], p);
    FlightsStay(run[m], steps[m], run[m + 1]);
    l := LostBetween(run, steps, i + 1, m, p);
  }

  /** A probe that succeeds before the next invalidation leaves its result where lookups find it. */
  lemma {:induction false} SuccessIsCurrent(w: World, step: Step, w': World, p: nat)
    requires Inv(w) && FillersOk(w) && Next(w, step, w') && Succeeds(step) && ActsOn(w, step.c, p)
    requires p < |w.cells|
    ensures p < |w'.cells| && w'.cells[p].value.Some? && w.cells[p].birth <= w.epoch == w'.epoch
    ensures w.cells[p].birth == w.epoch ==> w'.entry == Some(p)
  {
    assert CallerOk(w, w.callers[step.c]) && FillerOk(w, w.callers[step.c].phase);
    assert CellOk(w, w.cells[p]);
  }

  /** When two probes succeed between the same two invalidations, a follower has discarded the first result
      in between: otherwise at most one probe succeeds. */
  lemma {:induction false} SecondSuccessNeedsDiscard(
    run: seq<World>, steps: seq<Step>, i: nat, j: nat, p: nat, q: nat) returns (l: nat)
    requires IsRun(run, steps) && i < j < |steps| && Succeeds(steps[i]) && Succeeds(steps[j])
    requires ActsOn(run[i], steps[i].c, p) && ActsOn(run[j], steps[j].c, q)
    requires p < |run[i].cells| && q < |run[j].cells| && run[i].cells[p].birth == run[j].cells[q].birth
    ensures i < l < j && Discards(run[l], steps[l])
  {
    hide Inv, Discards, FillersOk, Next;
    Reachable(run, steps, i);
    Reachable(run, steps, j);
    CellsExist(run[i]);
    CellsExist(run[j]);
    RunStays(run, steps, i, j);
    var g := run[j].callers[steps[j].c].phase.flight;
    if g < |run[i].flights| {
      OldFlightIsDone(run, steps, i, j, p, g);
      assert false;
    } else {
      ProbeAdmitsNothing(run[i], steps[i], run[i + 1]);
      var m := AdmittedAt(run, steps, i + 1, j, g);
      AdmittedNow(run, steps, m, j);
      RunStays(run, steps, i, m);
      SuccessIsCurrentBirth(run, steps, i, p);
      l := DiscardedFor(run, steps, i, m, p);
    }
  }

  lemma {:induction false} ProbeAdmitsNothing(w: World, step: Step, w': World)
    requires Next(w, step, w') && Succeeds(step)
    ensures |w'.flights| == |w.flights|
  {
  }

  /** The birth of a flight, once and for all, is the epoch in which it was admitted. */
  lemma {:induction false} AdmittedNow(run: seq<World>, steps: seq<Step>, m: nat, n: nat)
    requires IsRun(run, steps) && m < n < |run| && |run[m].flights| < |run[m + 1].flights|
    ensures var g := |run[m].flights|;
            && g < |run[n].flights| && run[n].flights[g].cell < |run[n].cells|
            && BirthOf(run[n], g) == run[m].epoch
  {
    hide Inv, Next;
    Reachable(run, steps, m);
    assert Next(run[m], steps[m], run[m + 1]);
    FlightsStay(run[m], steps[m], run[m + 1]);
    RunStays(run, steps, m + 1, n);
  }

  lemma {:induction false} SuccessIsCurrentBirth(run: seq<World>, steps: seq<Step>, i: nat, p: nat)
    requires IsRun(run, steps) && i < |run| && p < |run[i].cells|
    ensures run[i].cells[p].birth <= run[i].epoch
  {
    Reachable(run, steps, i);
    assert CellOk(run[i], run[i].cells[p]);
  }

  /** Unless a result has been discarded, two calls that find a capability between the same two
      invalidations find the same one, from the same probe. */
  lemma {:induction false} CallsAgree(run: seq<World>, steps: seq<Step>, n: nat, c: nat, d: nat)
    requires IsRun(run, steps) && n < |run| && c in run[n].callers && d in run[n].callers
    requires forall l :: 0 <= l < n ==> !Discards(run[l], steps[l])
    requires run[n].callers[c].phase.Returned? && run[n].callers[c].phase.outcome.Found?
    requires run[n].callers[d].phase.Returned? && run[n].callers[d].phase.outcome.Found?
    requires var p, q := run[n].callers[c].phase.cell, run[n].callers[d].phase.cell;
             p < |run[n].cells| && q < |run[n].cells| && run[n].cells[p].birth == run[n].cells[q].birth
    ensures run[n].callers[c].phase == run[n].callers[d].phase
  {
    hide Next, Inv, Discards, FillersOk;
    AnswersAreFresh(run, steps, n, c);
    AnswersAreFresh(run, steps, n, d);
    var p, q := run[n].callers[c].phase.cell, run[n].callers[d].phase.cell;
    var i := FilledBy(run, steps, n, p);
    var j := FilledBy(run, steps, n, q);
    ActedCell(run, steps, i, n, steps[i].c, p);
    ActedCell(run, steps, j, n, steps[j].c, q);
    if i < j {
      var l := SecondSuccessNeedsDiscard(run, steps, i, j, p, q);
    } else if j < i {
      var l := SecondSuccessNeedsDiscard(run, steps, j, i, q, p);
    }
  }

  lemma {:induction false} ActedCell(run: seq<World>, steps: seq<Step>, i: nat, n: nat, c: nat, p: nat)
    requires IsRun(run, steps) && i < n < |run| && ActsOn(run[i], c, p)
    ensures p < |run[i].cells| && p < |run[n].cells| && run[n].cells[p].birth == run[i].cells[p].birth
  {
    hide Next;
    Reachable(run, steps, i);
    CellsExist(run[i]);
    RunStays(run, steps, i, n);
  }

  // ----- where discards come from -----

  /** A leader is dropped between the end of its successful probe and its publication. */
  predicate DropsWinner(w: World, step: Step) {
    && step.Drop? && step.c in w.callers
    && var phase := w.callers[step.c].phase;
       (phase.Probed? || phase.Publishing?) && phase.outcome.Found?
  }

  predicate Orphaned(w: World, f: nat)
    requires f < |w.flights|
  {
    w.flights[f].cell < |w.cells| && w.flights[f].channel.Closed? && w.cells[w.flights[f].cell].value.Some?
  }

  lemma {:induction false} OrphanedBy(w: World, step: Step, w': World, f: nat)
    requires Inv(w) && Next(w, step, w') && f < |w'.flights| && Orphaned(w', f)
    ensures (f < |w.flights| && Orphaned(w, f)) || DropsWinner(w, step)
  {
    FlightsStay(w, step, w');
    if !step.Invalidate? && step.c in w.callers {
      assert CallerOk(w, w.callers[step.c]);
    }
  }

  lemma {:induction false} OrphanNeedsDrop(run: seq<World>, steps: seq<Step>, n: nat, f: nat) returns (m: nat)
    requires IsRun(run, steps) && n < |run| && f < |run[n].flights| && Orphaned(run[n], f)
    ensures m < n && DropsWinner(run[m], steps[m])
  {
    hide Inv, Next, DropsWinner;
    assert n > 0;
    Reachable(run, steps, n - 1);
    assert Next(run[n - 1], steps[n - 1], run[n]);
    OrphanedBy(run[n - 1], steps[n - 1], run[n], f);
    if f < |run[n - 1].flights| && Orphaned(run[n - 1], f) {
      m := OrphanNeedsDrop(run, steps, n - 1, f);
    } else {
      m := n - 1;
    }
  }

  /** A result is discarded only after its leader was dropped between its probe and its publication; a leader
      dropped earlier does no harm. */
  lemma {:induction false} DiscardNeedsDrop(run: seq<World>, steps: seq<Step>, n: nat) returns (m: nat)
    requires IsRun(run, steps) && n < |steps| && Discards(run[n], steps[n])
    ensures m < n && DropsWinner(run[m], steps[m])
  {
    hide FlightsOk, CurrentOk, CellsOk, Next;
    Reachable(run, steps, n);
    assert CallerOk(run[n], run[n].callers[steps[n].c]);
    m := OrphanNeedsDrop(run, steps, n, run[n].callers[steps[n].c].phase.flight);
  }

  // ----- what a dropped leader can do -----

  /** A leader fills its cell and is dropped before it publishes; its follower throws the filled cell away
      and probes again. */
  function DropSteps(): seq<Step> {
    [Call(0), Lookup(0), Call(1), Lookup(1), StartProbe(0), EndProbe(0, Found(7)), Call(2), Lookup(2), Drop(0),
     Observe(1), Clean(1), Lookup(1), StartProbe(1), EndProbe(1, Found(8)), Remove(1), Send(1)]
  }

  function DropRun(): seq<World> {
    var empty, begun := Cell(0, None, None), Cell(0, Some(0), None);
    var seven, eight := Cell(0, Some(0), Some(7)), Cell(0, Some(0), Some(8));
    var enter, ready := Caller(0, Entering, 0), Caller(0, Returned(0, Found(7)), 0);
    var lead, follow := Caller(0, Leading(0), 0), Caller(0, Following(0), 0);
    var probed := Caller(0, Probed(0, Found(7)), 1);
    var first, closed := [Flight(0, Pending)], [Flight(0, Closed)];
    var both := [Flight(0, Closed), Flight(1, Pending)];
    [INITIAL,
     World(0, None, None, [], [], map[0 := enter]),
     World(0, Some(0), Some(0), [empty], first, map[0 := lead]),
     World(0, Some(0), Some(0), [empty], first, map[0 := lead, 1 := enter]),
     World(0, Some(0), Some(0), [empty], first, map[0 := lead, 1 := follow]),
     World(0, Some(0), Some(0), [begun], first, map[0 := Caller(0, Probing(0), 1), 1 := follow]),
     World(0, Some(0), Some(0), [seven], first, map[0 := probed, 1 := follow]),
     World(0, Some(0), Some(0), [seven], first, map[0 := probed, 1 := follow, 2 := enter]),
     World(0, Some(0), Some(0), [seven], first, map[0 := probed, 1 := follow, 2 := ready]),
     World(0, Some(0), Some(0), [seven], closed, map[1 := follow, 2 := ready]),
     World(0, Some(0), Some(0), [seven], closed, map[1 := Caller(0, Cleaning(0), 0), 2 := ready]),
     World(0, None, None, [seven], closed, map[1 := enter, 2 := ready]),
     World(0, Some(1), Some(1), [seven, empty], both, map[1 := Caller(0, Leading(1), 0), 2 := ready]),
     World(0, Some(1), Some(1), [seven, begun], both, map[1 := Caller(0, Probing(1), 1), 2 := ready]),
     World(0, Some(1), Some(1), [seven, eight], both, map[1 := Caller(0, Probed(1, Found(8)), 1), 2 := ready]),
     World(0, Some(1), None, [seven, eight], both, map[1 := Caller(0, Publishing(1, Found(8)), 1), 2 := ready]),
     World(0, Some(1), None, [seven, eight], [Flight(0, Closed), Flight(1, Sent(Found(8)))],
           map[1 := Caller(0, Returned(1, Found(8)), 1), 2 := ready])]
  }

  lemma {:induction false} DropBegins(i: nat)
    requires i < 6
    ensures Next(DropRun()[i], DropSteps()[i], DropRun()[i + 1])
  {
  }

  lemma {:induction false} DropGoesOn(i: nat)
    requires 6 <= i < 11
    ensures Next(DropRun()[i], DropSteps()[i], DropRun()[i + 1])
  {
  }

  lemma {:induction false} DropEnds(i: nat)
    requires 11 <= i < 16
    ensures Next(DropRun()[i], DropSteps()[i], DropRun()[i + 1])
  {
  }

  /** With such a drop, two calls can disagree although nothing was invalidated. */
  lemma {:induction false} DroppedLeaderDisagrees()
    ensures IsRun(DropRun(), DropSteps())
    ensures DropRun()[16].callers[2].phase.outcome == Found(7) && DropRun()[16].callers[1].phase.outcome == Found(8)
    ensures forall i :: 0 <= i < 16 ==> !DropSteps()[i].Invalidate?
  {
    var run, steps := DropRun(), DropSteps();
    forall i {:trigger steps[i]} | 0 <= i < |steps| ensures Next(run[i], steps[i], run[i + 1]) {
      hide Next;
      if i < 6 {
        DropBegins(i);
      } else if i < 11 {
        DropGoesOn(i);
      } else {
        DropEnds(i);
      }
    }
  }
}
