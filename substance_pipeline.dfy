/** `emit_specimen` and the row loop of `transform_directory`
    (transform/substance_transform.py) as methods over the emitter, proved
    against the functions of module Substances. */
module SubstancePipeline {
  import opened Common
  import opened Naming
  import opened Resources
  import opened Timepoint
  import opened Emission
  import opened Substances
  import opened SubstanceRun

  /** `emit_specimen`: builds the Specimen from the stub and the row, then
      emits it; an error raised on the way leaves the emitter untouched. */
  method EmitSpecimen(e: Emitter, h: NameHash, stub: Stub, row: Row) returns (error: Option<Error>)
    requires e.Valid() && e.Writable()
    modifies e
    ensures e.Valid() && e.Writable()
    ensures Enrich(h, stub, row).Failure? ==>
      error == Some(Enrich(h, stub, row).error) && e.State() == old(e.State())
    ensures Enrich(h, stub, row).Success? ==>
      error.None? && e.State() == AfterEmit(old(e.State()), e.outputPath, Enrich(h, stub, row).value)
  {
    var additives: seq<Json> := [];
    var specimen := stub;
    specimen := specimen["identifier" := JArr([JObj(map["value" := OptionalText(Get(row, "specimenID"))])])];
    var ligands := RowLigands(row);
    if ligands.Failure? {
      return Some(ligands.error);
    }
    var first := ligands.value.FirstKey();
    var second := ligands.value.SecondKey();
    additives := additives + [PopulateAdditive(h, first)];
    if Get(row, "secondLigand") != Some("none") {
      additives := additives + [PopulateAdditive(h, second)];
    }
    var time := TimeParser(row);
    if time.Failure? {
      return Some(time.error);
    }
    specimen := specimen["processing" := JArr([JObj(map["additive" := JArr(additives), "timeDateTime" := JStr(time.value)])])];
    specimen := specimen["resourceType" := JStr("Specimen")];
    assert additives == Additives(h, ligands.value);
    e.Emit(Resource("Specimen", specimen));
    return None;
  }

  /** Emitting one record is emitting the sequence holding just it. */
  lemma AfterEmitAllOne(s: EmitterState, outputPath: string, r: Resource)
    ensures AfterEmitAll(s, outputPath, [r]) == AfterEmit(s, outputPath, r)
  {
    assert [r][..0] == [];
  }

  /** One slot of the row loop: a key other than `none-0` met for the first
      time is recorded, then its Substance is built and emitted. */
  method EmitSlot(e: Emitter, h: NameHash, slot: Slot, key: string, ligand: string, dose: string, row: Row,
                  seen: seq<string>) returns (seen': seq<string>, error: Option<Error>)
    requires e.Valid() && e.Writable()
    modifies e
    ensures e.Valid() && e.Writable()
    ensures var step := SlotStep(h, slot, key, ligand, dose, row, seen);
      && seen' == step.seen && error == step.error
      && e.State() == AfterEmitAll(old(e.State()), e.outputPath, step.emitted)
  {
    seen', error := seen, None;
    if key != NoSubstance && key !in seen {
      seen' := seen + [key];
      var substance := SubstanceFor(h, slot, key, ligand, dose, row);
      if substance.Failure? {
        error := Some(substance.error);
        return;
      }
      AfterEmitAllOne(e.State(), e.outputPath, substance.value);
      e.Emit(substance.value);
    }
  }

  /** The body of the row loop on one row pair: both slots, then the
      Specimen. */
  method ProcessRow(e: Emitter, h: NameHash, row: Row, stub: Stub, seen: seq<string>)
    returns (seen': seq<string>, error: Option<Error>)
    requires e.Valid() && e.Writable()
    modifies e
    ensures e.Valid() && e.Writable()
    ensures var step := RowStep(h, row, stub, seen);
      && seen' == step.seen && error == step.error
      && e.State() == AfterEmitAll(old(e.State()), e.outputPath, step.emitted)
  {
    var ligands := RowLigands(row);
    if ligands.Failure? {
      return seen, Some(ligands.error);
    }
    var lig := ligands.value;
    ghost var start := e.State();
    ghost var first := SlotStep(h, First, lig.FirstKey(), lig.ligand, lig.dose, row, seen);
    seen', error := EmitSlot(e, h, First, lig.FirstKey(), lig.ligand, lig.dose, row, seen);
    if error.Some? {
      return;
    }
    ghost var second := SlotStep(h, Second, lig.SecondKey(), lig.secondLigand, lig.secondDose, row, seen');
    seen', error := EmitSlot(e, h, Second, lig.SecondKey(), lig.secondLigand, lig.secondDose, row, seen');
    AfterEmitAllAppend(start, e.outputPath, first.emitted, second.emitted);
    if error.Some? {
      return;
    }
    ghost var beforeSpecimen := e.State();
    error := EmitSpecimen(e, h, stub, row);
    if error.Some? {
      return;
    }
    AfterEmitAllOne(beforeSpecimen, e.outputPath, Enrich(h, stub, row).value);
    AfterEmitAllAppend(start, e.outputPath, first.emitted + second.emitted, [Enrich(h, stub, row).value]);
  }

  /** The run over one more row pair, after a prefix that went through. */
  lemma RunNext(h: NameHash, pairs: seq<(Row, Stub)>, i: nat)
    requires i < |pairs| && Run(h, pairs[..i]).error.None?
    ensures var prev := Run(h, pairs[..i]);
      var s := RowStep(h, pairs[i].0, pairs[i].1, prev.seen);
      Run(h, pairs[..i + 1]) == Step(prev.emitted + s.emitted, s.seen, s.error)
  {
    assert pairs[..i + 1][..i] == pairs[..i];
  }

  /** The row loop of `transform_directory` over the parsed streams, then
      `close_all_emitters()`. It emits what the run emits; an error stops it
      where it is raised, and then nothing is closed. */
  method TransformDirectory(e: Emitter, h: NameHash, annotations: seq<Row>, stubs: seq<Stub>) returns (error: Option<Error>)
    requires e.Valid() && e.Writable()
    modifies e
    ensures e.Valid()
    ensures error == Run(h, Zip(annotations, stubs)).error
    ensures error.None? ==>
      e.State() == Closed(AfterEmitAll(old(e.State()), e.outputPath, Run(h, Zip(annotations, stubs)).emitted))
    ensures error.Some? ==>
      e.Writable() && e.State() == AfterEmitAll(old(e.State()), e.outputPath, Run(h, Zip(annotations, stubs)).emitted)
  {
    var pairs := Zip(annotations, stubs);
    var substances: seq<string> := [];
    ghost var emitted: seq<Resource> := [];
    var i := 0;
    while i < |pairs|
      invariant 0 <= i <= |pairs|
      invariant Run(h, pairs[..i]) == Step(emitted, substances, None)
      invariant e.Valid() && e.Writable()
      invariant e.State() == AfterEmitAll(old(e.State()), e.outputPath, emitted)
    {
      var row, stub := pairs[i].0, pairs[i].1;
      ghost var step := RowStep(h, row, stub, substances);
      RunNext(h, pairs, i);
      AfterEmitAllAppend(old(e.State()), e.outputPath, emitted, step.emitted);
      substances, error := ProcessRow(e, h, row, stub, substances);
      emitted := emitted + step.emitted;
      if error.Some? {
        RunStopsAtError(h, pairs, i + 1);
        return;
      }
      i := i + 1;
    }
    assert pairs[..i] == pairs;
    e.CloseAll();
    return None;
  }
}
