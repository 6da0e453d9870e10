/** The substance/specimen transform of transform/substance_transform.py as
    functions: what one row pair emits, and what a whole run emits. The
    methods that do the emitting are in module SubstancePipeline. */
module Substances {
  import opened Common
  import opened Text
  import opened Naming
  import opened Resources
  import opened Vocabulary
  import opened Timepoint
  import opened Emission

  /** One line of the specimen stub stream, parsed. */
  type Stub = map<string, Json>

  /** The key of a slot that creates no Substance. */
  const NoSubstance: string := "none-0"

  const ChemicalCategory: string := "http://terminology.hl7.org/CodeSystem/substance-category#chemical"

  /** `ligand + '-' + str(dose)`: no specimen name is part of the key. */
  function SlotKey(ligand: string, dose: string): string {
    ligand + "-" + dose
  }

  /** `substance_id(key)` */
  function SubstanceId(h: NameHash, key: string): string {
    NameId(h, key)
  }

  /** `populate_additive(key)`: a reference to the Substance of that key. */
  function PopulateAdditive(h: NameHash, key: string): Json {
    Reference("Substance", SubstanceId(h, key))
  }

  /** The four ligand fields every row must have. */
  datatype Ligands = Ligands(ligand: string, dose: string, secondLigand: string, secondDose: string) {
    function FirstKey(): string { SlotKey(ligand, dose) }
    function SecondKey(): string { SlotKey(secondLigand, secondDose) }
  }

  /** `row['ligand']`, `row['ligandDose']`, `row['secondLigand']`,
      `row['secondLigandDose']`, read in that order. */
  function RowLigands(row: Row): (r: Result<Ligands>)
    ensures r.Success? <==>
      Get(row, "ligand").Some? && Get(row, "ligandDose").Some? &&
      Get(row, "secondLigand").Some? && Get(row, "secondLigandDose").Some?
    ensures r.Success? ==> r.value == Ligands(Get(row, "ligand").value, Get(row, "ligandDose").value,
      Get(row, "secondLigand").value, Get(row, "secondLigandDose").value)
  {
    var ligand :- Field(row, "ligand");
    var dose :- Field(row, "ligandDose");
    var secondLigand :- Field(row, "secondLigand");
    var secondDose :- Field(row, "secondLigandDose");
    Success(Ligands(ligand, dose, secondLigand, secondDose))
  }

  /** The two ligand slots of a row. The second slot's category coding puts
      the category URL under `code`, the first under `system`. */
  datatype Slot = First | Second {
    function LigandField(): string { if First? then "ligand" else "secondLigand" }
    function DoseField(): string { if First? then "ligandDose" else "secondLigandDose" }
    function UnitField(): string { if First? then "ligandDoseUnit" else "secondLigandDoseUnit" }
    function Category(): Json {
      if First? then JObj(map["system" := JStr(ChemicalCategory)])
      else JObj(map["code" := JStr(ChemicalCategory)])
    }
  }

  function OptionalText(v: Option<string>): Json {
    match v
    case Some(s) => JStr(s)
    case None => JNull
  }

  /** The Substance a slot creates: its coding looked up by ligand name,
      then its quantity `int(dose)` with the slot's unit. */
  function SubstanceFor(h: NameHash, slot: Slot, key: string, ligand: string, dose: string, row: Row): (r: Result<Resource>)
    ensures r.Success? <==> CodeMappings(ligand).Success? && ParseInt(dose).Some?
    ensures CodeMappings(ligand).Failure? ==> r == Failure(UnmappedLigand(ligand))
    ensures CodeMappings(ligand).Success? && ParseInt(dose).None? ==> r == Failure(NotAnInteger(dose))
    ensures r.Success? ==> r.value.resourceType == "Substance" && IdOf(r.value) == Some(SubstanceId(h, key))
    ensures r.Success? ==> (
      && "instance" in r.value.fields
      && r.value.fields["instance"] ==
           JArr([JObj(map["quantity" := JObj(map["value" := JInt(ParseInt(dose).value),
                                                  "unit" := OptionalText(Get(row, slot.UnitField()))])])]))
    ensures r.Success? ==> (
      && "code" in r.value.fields
      && r.value.fields["code"] == JObj(map["coding" := JArr([JObj(map[
           "system" := JStr(CodeMappings(ligand).value.system), "code" := JStr(CodeMappings(ligand).value.code)])])]))
    ensures r.Success? ==> (
      && "category" in r.value.fields
      && r.value.fields["category"] == JArr([JObj(map["coding" := JArr([slot.Category()])])]))
  {
    var coding :- CodeMappings(ligand);
    match ParseInt(dose)
    case None => Failure(NotAnInteger(dose))
    case Some(value) =>
      Success(Resource("Substance", map[
        "id" := JStr(SubstanceId(h, key)),
        "resourceType" := JStr("Substance"),
        "category" := JArr([JObj(map["coding" := JArr([slot.Category()])])]),
        "code" := JObj(map["coding" := JArr([JObj(map["system" := JStr(coding.system), "code" := JStr(coding.code)])])]),
        "instance" := JArr([JObj(map["quantity" := JObj(map["value" := JInt(value),
                                                          "unit" := OptionalText(Get(row, slot.UnitField()))])])])
      ]))
  }

  /** The keys a specimen refers to: always the first slot's, the second's
      only when the row names a second ligand. */
  function RefKeys(lig: Ligands): seq<string> {
    [lig.FirstKey()] + (if lig.secondLigand != "none" then [lig.SecondKey()] else [])
  }

  /** The `additive` list of `emit_specimen`. */
  function Additives(h: NameHash, lig: Ligands): (a: seq<Json>)
    ensures |a| == |RefKeys(lig)|
    ensures forall i :: 0 <= i < |a| ==> a[i] == PopulateAdditive(h, RefKeys(lig)[i])
  {
    [PopulateAdditive(h, lig.FirstKey())] +
    (if lig.secondLigand != "none" then [PopulateAdditive(h, lig.SecondKey())] else [])
  }

  /** The names `emit_specimen` replaces in the stub. */
  const Enriched: set<string> := {"identifier", "processing", "resourceType"}

  /** `emit_specimen` up to the emit: the stub with its identifier replaced
      by the row's specimenID, one processing entry holding the additive
      references and the timestamp, and the resource type set. */
  function Enrich(h: NameHash, stub: Stub, row: Row): (r: Result<Resource>)
    ensures r.Success? <==> RowLigands(row).Success? && TimeParser(row).Success?
    ensures RowLigands(row).Failure? ==> r == Failure(RowLigands(row).error)
    ensures RowLigands(row).Success? && TimeParser(row).Failure? ==> r == Failure(TimeParser(row).error)
    ensures r.Success? ==> r.value.resourceType == "Specimen"
  {
    var identifier := JArr([JObj(map["value" := OptionalText(Get(row, "specimenID"))])]);
    var lig :- RowLigands(row);
    var time :- TimeParser(row);
    var processing := JArr([JObj(map["additive" := JArr(Additives(h, lig)), "timeDateTime" := JStr(time)])]);
    Success(Resource("Specimen", stub["identifier" := identifier]["processing" := processing]["resourceType" := JStr("Specimen")]))
  }

  /** The Specimen keeps every field of the stub but the three it sets;
      its identifier is the row's specimenID (null when the row has none)
      and its one processing entry holds the additive references and the
      timestamp of the row. */
  lemma EnrichFields(h: NameHash, stub: Stub, row: Row)
    requires Enrich(h, stub, row).Success?
    ensures var r := Enrich(h, stub, row).value;
      && r.fields.Keys == stub.Keys + Enriched
      && (forall k :: k in stub && k !in Enriched ==> r.fields[k] == stub[k])
      && r.fields["resourceType"] == JStr("Specimen")
      && r.fields["identifier"] == JArr([JObj(map["value" := OptionalText(Get(row, "specimenID"))])])
      && r.fields["processing"] == JArr([JObj(map[
           "additive" := JArr(Additives(h, RowLigands(row).value)),
           "timeDateTime" := JStr(TimeParser(row).value)])])
  {
  }

  /** What has been emitted so far, the `substances` list, and the error
      that stopped the run, if any. */
  datatype Step = Step(emitted: seq<Resource>, seen: seq<string>, error: Option<Error>)

  /** `substances` after meeting `key`: keys other than `none-0` are
      recorded once, on first occurrence. */
  function AddKey(seen: seq<string>, key: string): seq<string> {
    if key != NoSubstance && key !in seen then seen + [key] else seen
  }

  function AddKeys(seen: seq<string>, keys: seq<string>): seq<string>
    decreases |keys|
  {
    if keys == [] then seen else AddKeys(AddKey(seen, keys[0]), keys[1..])
  }

  /** One slot of the row loop. The key is recorded before the Substance is
      built, so a failing build leaves it recorded. */
  function SlotStep(h: NameHash, slot: Slot, key: string, ligand: string, dose: string, row: Row, seen: seq<string>): (s: Step)
    ensures s.seen == AddKey(seen, key)
    ensures s.error.None? ==> |s.emitted| == |s.seen| - |seen|
    ensures s.error.Some? ==> s.emitted == []
    ensures forall i :: 0 <= i < |s.emitted| ==>
      s.emitted[i].resourceType == "Substance" && IdOf(s.emitted[i]) == Some(SubstanceId(h, key))
  {
    if key != NoSubstance && key !in seen then
      match SubstanceFor(h, slot, key, ligand, dose, row)
      case Failure(e) => Step([], seen + [key], Some(e))
      case Success(r) => Step([r], seen + [key], None)
    else Step([], seen, None)
  }

  /** The keys of a row, in slot order. */
  function RowKeys(lig: Ligands): seq<string> {
    [lig.FirstKey(), lig.SecondKey()]
  }

  /** The body of the row loop on one row pair. */
  function RowStep(h: NameHash, row: Row, stub: Stub, seen: seq<string>): (s: Step)
    ensures RowLigands(row).Failure? ==> s == Step([], seen, Some(RowLigands(row).error))
    ensures s.error.None? ==> RowLigands(row).Success? && Enrich(h, stub, row).Success?
  {
    match RowLigands(row)
    case Failure(e) => Step([], seen, Some(e))
    case Success(lig) =>
      var first := SlotStep(h, First, lig.FirstKey(), lig.ligand, lig.dose, row, seen);
      if first.error.Some? then first
      else
        var second := SlotStep(h, Second, lig.SecondKey(), lig.secondLigand, lig.secondDose, row, first.seen);
        if second.error.Some? then Step(first.emitted + second.emitted, second.seen, second.error)
        else
          match Enrich(h, stub, row)
          case Failure(e) => Step(first.emitted + second.emitted, second.seen, Some(e))
          case Success(specimen) => Step(first.emitted + second.emitted + [specimen], second.seen, None)
  }

  /** A row that goes through records its fresh keys in slot order, emits
      one Substance per fresh key, named after that key, and then the
      enriched Specimen. */
  lemma RowStepShape(h: NameHash, row: Row, stub: Stub, seen: seq<string>)
    requires RowStep(h, row, stub, seen).error.None?
    ensures var s := RowStep(h, row, stub, seen);
      && s.seen == AddKeys(seen, RowKeys(RowLigands(row).value))
      && |seen| <= |s.seen| && s.seen[..|seen|] == seen
      && |s.emitted| == |s.seen| - |seen| + 1
      && s.emitted[|s.emitted| - 1] == Enrich(h, stub, row).value
      && forall i :: 0 <= i < |s.emitted| - 1 ==>
           s.emitted[i].resourceType == "Substance" && IdOf(s.emitted[i]) == Some(SubstanceId(h, s.seen[|seen| + i]))
  {
    RowStepSeen(h, row, stub, seen);
    RowStepSubstances(h, row, stub, seen);
  }

  /** The two slot steps of a row, and the Specimen after them. */
  lemma RowStepParts(h: NameHash, row: Row, stub: Stub, seen: seq<string>)
    requires RowStep(h, row, stub, seen).error.None?
    ensures RowLigands(row).Success? && Enrich(h, stub, row).Success?
    ensures var lig := RowLigands(row).value;
      var first := SlotStep(h, First, lig.FirstKey(), lig.ligand, lig.dose, row, seen);
      var second := SlotStep(h, Second, lig.SecondKey(), lig.secondLigand, lig.secondDose, row, first.seen);
      && first.error.None? && second.error.None?
      && RowStep(h, row, stub, seen) == Step(first.emitted + second.emitted + [Enrich(h, stub, row).value], second.seen, None)
  {
  }

  lemma RowStepSeen(h: NameHash, row: Row, stub: Stub, seen: seq<string>)
    requires RowStep(h, row, stub, seen).error.None?
    ensures var s := RowStep(h, row, stub, seen);
      && s.seen == AddKeys(seen, RowKeys(RowLigands(row).value))
      && |seen| <= |s.seen| && s.seen[..|seen|] == seen
      && |s.emitted| == |s.seen| - |seen| + 1
      && s.emitted[|s.emitted| - 1] == Enrich(h, stub, row).value
  {
    RowStepParts(h, row, stub, seen);
    var lig := RowLigands(row).value;
    var first := SlotStep(h, First, lig.FirstKey(), lig.ligand, lig.dose, row, seen);
    var keys := RowKeys(lig);
    calc {
      AddKeys(seen, keys);
      AddKeys(AddKey(seen, keys[0]), keys[1..]);
      { assert keys[1..][0] == lig.SecondKey() && keys[1..][1..] == []; }
      AddKeys(AddKey(first.seen, lig.SecondKey()), []);
    }
  }

  lemma RowStepSubstances(h: NameHash, row: Row, stub: Stub, seen: seq<string>)
    requires RowStep(h, row, stub, seen).error.None?
    ensures var s := RowStep(h, row, stub, seen);
      && |seen| <= |s.seen| && |s.emitted| == |s.seen| - |seen| + 1
      && forall i :: 0 <= i < |s.emitted| - 1 ==>
           s.emitted[i].resourceType == "Substance" && IdOf(s.emitted[i]) == Some(SubstanceId(h, s.seen[|seen| + i]))
  {
    RowStepParts(h, row, stub, seen);
    var lig := RowLigands(row).value;
    TwoSlots(h, row, lig, seen);
  }

  /** The Substances the two slots of a row emit, in slot order, one per
      newly recorded key. */
  lemma TwoSlots(h: NameHash, row: Row, lig: Ligands, seen: seq<string>)
    ensures var first := SlotStep(h, First, lig.FirstKey(), lig.ligand, lig.dose, row, seen);
      var second := SlotStep(h, Second, lig.SecondKey(), lig.secondLigand, lig.secondDose, row, first.seen);
      var both := first.emitted + second.emitted;
      first.error.None? && second.error.None? ==>
        && |seen| <= |second.seen| && |both| == |second.seen| - |seen|
        && forall i :: 0 <= i < |both| ==>
             both[i].resourceType == "Substance" && IdOf(both[i]) == Some(SubstanceId(h, second.seen[|seen| + i]))
  {
    var first := SlotStep(h, First, lig.FirstKey(), lig.ligand, lig.dose, row, seen);
    var second := SlotStep(h, Second, lig.SecondKey(), lig.secondLigand, lig.secondDose, row, first.seen);
    var both := first.emitted + second.emitted;
    if first.error.None? && second.error.None? {
      forall i | 0 <= i < |both|
        ensures both[i].resourceType == "Substance" && IdOf(both[i]) == Some(SubstanceId(h, second.seen[|seen| + i]))
      {
        if i < |first.emitted| {
          assert first.seen == seen + [lig.FirstKey()];
          assert second.seen[|seen| + i] == lig.FirstKey();
        } else {
          assert both[i] == second.emitted[i - |first.emitted|];
          assert second.seen == first.seen + [lig.SecondKey()];
          assert second.seen[|seen| + i] == lig.SecondKey();
        }
      }
    }
  }

  /** `zip(annotation_lines, specimen_lines)`: pairs by position, as many as
      the shorter stream has. */
  function Zip(annotations: seq<Row>, stubs: seq<Stub>): (pairs: seq<(Row, Stub)>)
    ensures |pairs| == if |annotations| < |stubs| then |annotations| else |stubs|
    ensures forall i :: 0 <= i < |pairs| ==> pairs[i] == (annotations[i], stubs[i])
  {
    var n := if |annotations| < |stubs| then |annotations| else |stubs|;
    seq(n, i requires 0 <= i < n => (annotations[i], stubs[i]))
  }

  /** The row loop over the pairs, stopping at the first error. */
  function Run(h: NameHash, pairs: seq<(Row, Stub)>): Step
    decreases |pairs|
  {
    if pairs == [] then Step([], [], None)
    else
      var prev := Run(h, pairs[..|pairs| - 1]);
      if prev.error.Some? then prev
      else
        var last := pairs[|pairs| - 1];
        var s := RowStep(h, last.0, last.1, prev.seen);
        Step(prev.emitted + s.emitted, s.seen, s.error)
  }
}
