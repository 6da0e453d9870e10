/** The record builders of mcf10a_etl/transform.py: the study, the
    ResearchSubjects and Patients of the cell lines, one Specimen per sample
    annotation, and the Tasks and DocumentReferences of the assays a sample
    names. All identifiers are name-based ids of fixed key strings. */
module Mcf10aRecords {
  import opened Common
  import opened Naming
  import opened Resources

  /** `PROJECT_ID` of mcf10a_etl/__init__.py. */
  const ProjectId: string := "syn21577710"

  const SynapseSystem: string := "https://www.synapse.org/"

  function Identifier(system: string, value: string): Json {
    JObj(map["system" := JStr(system), "value" := JStr(value)])
  }

  function StudyId(h: NameHash): string { NameId(h, ProjectId) }
  function PatientId(h: NameHash, cellLine: string): string { NameId(h, "Patient/" + cellLine) }
  function SubjectId(h: NameHash, cellLine: string): string { NameId(h, "ResearchSubject/" + cellLine) }
  function SpecimenId(h: NameHash, specimenName: string): string { NameId(h, "Specimen/" + specimenName) }
  function TaskId(h: NameHash, specimenName: string, assay: string): string {
    NameId(h, "Task/" + specimenName + "-" + assay)
  }

  // ---------------------------------------------------------------- study

  /** `transform_study`: the one ResearchStudy of the project. */
  function Study(h: NameHash): (r: Resource)
    ensures r.resourceType == "ResearchStudy" && IdOf(r) == Some(StudyId(h))
    ensures "identifier" in r.fields && r.fields["identifier"] == JArr([Identifier(SynapseSystem, ProjectId)])
  {
    Resource("ResearchStudy", map[
      "id" := JStr(StudyId(h)),
      "title" := JStr("LINCS MCF10A Molecular Deep Dive (MDD)"),
      "status" := JStr("completed"),
      "identifier" := JArr([Identifier(SynapseSystem, ProjectId)])
    ])
  }

  // ------------------------------------------------------------- subjects

  /** `set([summary['Cell_Line'] for summary in assay_summaries])`: the list
      is built first, so the first summary without `Cell_Line` raises. */
  function CellLineNames(summaries: seq<Row>): Result<set<string>>
    decreases |summaries|
  {
    if summaries == [] then Success({})
    else
      var names :- CellLineNames(summaries[..|summaries| - 1]);
      var name :- Field(summaries[|summaries| - 1], "Cell_Line");
      Success(names + {name})
  }

  /** The cell-line set is defined exactly when every summary has a
      `Cell_Line`, and then holds exactly those values. */
  lemma {:induction false} CellLineNamesSpec(summaries: seq<Row>)
    ensures CellLineNames(summaries).Success? <==>
      forall i :: 0 <= i < |summaries| ==> Get(summaries[i], "Cell_Line").Some?
    ensures CellLineNames(summaries).Success? ==> CellLineNames(summaries).value == Values(summaries, "Cell_Line")
    ensures CellLineNames(summaries).Failure? ==> CellLineNames(summaries).error == MissingField("Cell_Line")
    decreases |summaries|
  {
    if summaries != [] {
      var init := summaries[..|summaries| - 1];
      CellLineNamesSpec(init);
      assert forall i :: 0 <= i < |init| ==> init[i] == summaries[i];
    }
  }

  /** The ResearchSubject of a cell line: it names the cell line's Patient
      and the study. */
  function SubjectFor(h: NameHash, cellLine: string): (r: Resource)
    ensures r.resourceType == "ResearchSubject" && IdOf(r) == Some(SubjectId(h, cellLine))
    ensures "individual" in r.fields && r.fields["individual"] == Reference("Patient", PatientId(h, cellLine))
    ensures "study" in r.fields && r.fields["study"] == Reference("ResearchStudy", StudyId(h))
  {
    Resource("ResearchSubject", map[
      "id" := JStr(SubjectId(h, cellLine)),
      "individual" := Reference("Patient", PatientId(h, cellLine)),
      "study" := Reference("ResearchStudy", StudyId(h)),
      "status" := JStr("on-study")
    ])
  }

  /** The value of the `demographics` dict for one annotation. */
  datatype Demographic = Demographic(species: string, gender: string, cellType: string)

  /** One item of the `demographics` comprehension: the key `cellLine` is
      read first, then `species`, `sex` and `cellType`. */
  function DemographicOf(row: Row): Result<(string, Demographic)> {
    var cellLine :- Field(row, "cellLine");
    var species :- Field(row, "species");
    var sex :- Field(row, "sex");
    var cellType :- Field(row, "cellType");
    Success((cellLine, Demographic(species, sex, cellType)))
  }

  /** An annotation lacking one of the four fields raises KeyError, the
      first missing one in reading order; otherwise its item is its cell
      line and the demographic it states, `sex` as the gender. */
  lemma DemographicOfSpec(row: Row)
    ensures DemographicOf(row).Success? <==>
      Get(row, "cellLine").Some? && Get(row, "species").Some? && Get(row, "sex").Some? && Get(row, "cellType").Some?
    ensures DemographicOf(row).Failure? ==> DemographicOf(row).error == MissingField(
      if Get(row, "cellLine").None? then "cellLine"
      else if Get(row, "species").None? then "species"
      else if Get(row, "sex").None? then "sex"
      else "cellType")
    ensures DemographicOf(row).Success? ==> DemographicOf(row).value == (Get(row, "cellLine").value,
      Demographic(Get(row, "species").value, Get(row, "sex").value, Get(row, "cellType").value))
  {
  }

  /** A dict as its items in insertion order. */
  type Items = seq<(string, Demographic)>

  predicate DistinctKeys(items: Items) {
    forall i, j :: 0 <= i < j < |items| ==> items[i].0 != items[j].0
  }

  function Keys(items: Items): set<string> {
    set i | 0 <= i < |items| :: items[i].0
  }

  /** `d[key] = value` on a dict: an existing key keeps its place and
      takes the new value, a new key goes at the end. */
  function Store(items: Items, key: string, value: Demographic): Items {
    if key in Keys(items) then
      seq(|items|, i requires 0 <= i < |items| => if items[i].0 == key then (key, value) else items[i])
    else items + [(key, value)]
  }

  /** Storing keeps the keys distinct and in place, adds the key, gives it
      the new value and keeps every other item. */
  lemma StoreSpec(items: Items, key: string, value: Demographic)
    requires DistinctKeys(items)
    ensures var r := Store(items, key, value);
      && DistinctKeys(r)
      && Keys(r) == Keys(items) + {key}
      && (key, value) in r
      && (forall i :: 0 <= i < |items| ==> r[i].0 == items[i].0)
      && forall p :: p in items && p.0 != key ==> p in r
  {
    var r := Store(items, key, value);
    if key in Keys(items) {
      var k :| 0 <= k < |items| && items[k].0 == key;
      assert r[k] == (key, value);
      forall x | x in Keys(r) ensures x in Keys(items) + {key} {
        var i :| 0 <= i < |r| && r[i].0 == x;
        assert items[i].0 == x;
      }
      forall x | x in Keys(items) ensures x in Keys(r) {
        var i :| 0 <= i < |items| && items[i].0 == x;
        assert r[i].0 == x;
      }
      forall p | p in items && p.0 != key ensures p in r {
        var i :| 0 <= i < |items| && items[i] == p;
        assert r[i] == p;
      }
    } else {
      assert r[|items|] == (key, value);
      forall x | x in Keys(r) ensures x in Keys(items) + {key} {
        var i :| 0 <= i < |r| && r[i].0 == x;
        if i < |items| {
          assert r[i] == items[i];
        }
      }
      forall x | x in Keys(items) ensures x in Keys(r) {
        var i :| 0 <= i < |items| && items[i].0 == x;
        assert r[i] == items[i];
      }
    }
  }

  /** The `demographics` dict, built row by row. */
  function Demographics(rows: seq<Row>): Result<Items>
    decreases |rows|
  {
    if rows == [] then Success([])
    else
      var items :- Demographics(rows[..|rows| - 1]);
      var item :- DemographicOf(rows[|rows| - 1]);
      Success(Store(items, item.0, item.1))
  }

  /** The dict is built exactly when every annotation has the four
      fields. */
  lemma {:induction false} DemographicsDefined(rows: seq<Row>)
    ensures Demographics(rows).Success? <==> forall i :: 0 <= i < |rows| ==> DemographicOf(rows[i]).Success?
    decreases |rows|
  {
    if rows != [] {
      var init, last := rows[..|rows| - 1], rows[|rows| - 1];
      DemographicsDefined(init);
      assert Demographics(rows).Success? <==> Demographics(init).Success? && DemographicOf(last).Success?;
      if forall i :: 0 <= i < |rows| ==> DemographicOf(rows[i]).Success? {
        forall i | 0 <= i < |init| ensures DemographicOf(init[i]).Success? {
          assert init[i] == rows[i];
        }
      }
      if Demographics(rows).Success? {
        forall i | 0 <= i < |rows| ensures DemographicOf(rows[i]).Success? {
          if i < |init| {
            assert rows[i] == init[i];
          } else {
            assert i == |rows| - 1;
          }
        }
      }
    }
  }

  /** The values the rows hold under `key`, for the rows that have it. */
  function Values(rows: seq<Row>, key: string): set<string>
    decreases |rows|
  {
    if rows == [] then {}
    else
      Values(rows[..|rows| - 1], key) +
      match Get(rows[|rows| - 1], key) case Some(v) => {v} case None => {}
  }

  lemma {:induction false} ValuesSpec(rows: seq<Row>, key: string, v: string)
    ensures v in Values(rows, key) <==> exists i :: 0 <= i < |rows| && Get(rows[i], key) == Some(v)
    decreases |rows|
  {
    if rows != [] {
      var init := rows[..|rows| - 1];
      ValuesSpec(init, key, v);
      assert forall i :: 0 <= i < |init| ==> rows[i] == init[i];
    }
  }

  /** The dict holds each cell line of the annotations exactly once. */
  lemma {:induction false} DemographicsKeys(rows: seq<Row>)
    requires Demographics(rows).Success?
    ensures DistinctKeys(Demographics(rows).value)
    ensures Keys(Demographics(rows).value) == Values(rows, "cellLine")
    decreases |rows|
  {
    if rows != [] {
      var init, last := rows[..|rows| - 1], rows[|rows| - 1];
      DemographicsKeys(init);
      var items := Demographics(init).value;
      var item := DemographicOf(last).value;
      assert Demographics(rows).value == Store(items, item.0, item.1);
      StoreSpec(items, item.0, item.1);
      DemographicOfSpec(last);
    }
  }

  /** Last row wins: an annotation no later annotation of the same cell
      line follows gives that cell line its demographic. */
  lemma {:induction false} DemographicsLastWins(rows: seq<Row>, i: nat)
    requires Demographics(rows).Success? && i < |rows|
    requires forall j :: i < j < |rows| ==> Get(rows[j], "cellLine") != Get(rows[i], "cellLine")
    ensures DemographicOf(rows[i]).Success? && DemographicOf(rows[i]).value in Demographics(rows).value
    decreases |rows|
  {
    var init, last := rows[..|rows| - 1], rows[|rows| - 1];
    var items := Demographics(init).value;
    var item := DemographicOf(last).value;
    assert Demographics(rows).value == Store(items, item.0, item.1);
    DemographicsKeys(init);
    StoreSpec(items, item.0, item.1);
    DemographicsDefined(rows);
    DemographicOfSpec(last);
    DemographicOfSpec(rows[i]);
    if i < |init| {
      assert init[i] == rows[i];
      forall j | i < j < |init| ensures Get(init[j], "cellLine") != Get(init[i], "cellLine") {
        assert init[j] == rows[j];
      }
      DemographicsLastWins(init, i);
      assert DemographicOf(rows[i]).value.0 != item.0;
    }
  }

  /** The Patient of a cell line: its gender is the annotation's `sex` and
      its identifier the cell-line name. */
  function PatientFor(h: NameHash, cellLine: string, d: Demographic): (r: Resource)
    ensures r.resourceType == "Patient" && IdOf(r) == Some(PatientId(h, cellLine))
    ensures "gender" in r.fields && r.fields["gender"] == JStr(d.gender)
    ensures "identifier" in r.fields && r.fields["identifier"] == JArr([Identifier(SynapseSystem, cellLine)])
  {
    Resource("Patient", map[
      "id" := JStr(PatientId(h, cellLine)),
      "gender" := JStr(d.gender),
      "identifier" := JArr([Identifier(SynapseSystem, cellLine)])
    ])
  }

  /** The Patients of the `demographics` dict, in its order. */
  function Patients(h: NameHash, items: Items): (r: seq<Resource>)
    ensures |r| == |items|
    ensures forall i :: 0 <= i < |items| ==> r[i] == PatientFor(h, items[i].0, items[i].1)
  {
    seq(|items|, i requires 0 <= i < |items| => PatientFor(h, items[i].0, items[i].1))
  }

  lemma {:induction false} DistinctKeysCount(items: Items)
    requires DistinctKeys(items)
    ensures |Keys(items)| == |items|
    decreases |items|
  {
    if items != [] {
      var init, last := items[..|items| - 1], items[|items| - 1];
      DistinctKeysCount(init);
      forall x | x in Keys(items) ensures x in Keys(init) + {last.0} {
        var i :| 0 <= i < |items| && items[i].0 == x;
        if i < |init| {
          assert init[i] == items[i];
        }
      }
      forall x | x in Keys(init) ensures x in Keys(items) {
        var i :| 0 <= i < |init| && init[i].0 == x;
        assert items[i] == init[i];
      }
      forall i | 0 <= i < |init| ensures init[i].0 != last.0 {
        assert init[i] == items[i];
      }
      assert last.0 !in Keys(init);
      assert Keys(items) == Keys(init) + {last.0};
    }
  }

  /** One Patient per distinct `cellLine` of the annotations: as many
      Patients as cell lines, and each cell line has its Patient, named
      after it. */
  lemma PatientsPerCellLine(h: NameHash, rows: seq<Row>, c: string)
    requires Demographics(rows).Success?
    ensures |Patients(h, Demographics(rows).value)| == |Values(rows, "cellLine")|
    ensures c in Values(rows, "cellLine") <==>
      exists k :: 0 <= k < |Demographics(rows).value| && Demographics(rows).value[k].0 == c
    ensures c in Values(rows, "cellLine") ==>
      exists p :: (p in Patients(h, Demographics(rows).value) && p.resourceType == "Patient" &&
        IdOf(p) == Some(PatientId(h, c)) && p.fields["identifier"] == JArr([Identifier(SynapseSystem, c)]))
  {
    var items := Demographics(rows).value;
    DemographicsKeys(rows);
    DistinctKeysCount(items);
    if c in Values(rows, "cellLine") {
      assert c in Keys(items);
      var k :| 0 <= k < |items| && items[k].0 == c;
      assert Patients(h, items)[k] == PatientFor(h, c, items[k].1);
    }
  }

  /** Last row wins for the Patient too: its gender is the `sex` of the
      last annotation of its cell line. */
  lemma PatientLastWins(h: NameHash, rows: seq<Row>, i: nat)
    requires Demographics(rows).Success? && i < |rows|
    requires forall j :: i < j < |rows| ==> Get(rows[j], "cellLine") != Get(rows[i], "cellLine")
    ensures Get(rows[i], "cellLine").Some? && Get(rows[i], "sex").Some?
    ensures exists p :: (p in Patients(h, Demographics(rows).value) &&
      IdOf(p) == Some(PatientId(h, Get(rows[i], "cellLine").value)) &&
      p.fields["gender"] == JStr(Get(rows[i], "sex").value))
  {
    DemographicsLastWins(rows, i);
    DemographicOfSpec(rows[i]);
    var items := Demographics(rows).value;
    var item := DemographicOf(rows[i]).value;
    var k :| 0 <= k < |items| && items[k] == item;
    assert Patients(h, items)[k] == PatientFor(h, item.0, item.1);
  }

  // ------------------------------------------------------------ specimens

  const SnomedSystem: string := "http://purl.bioontology.org/ontology/SNOMEDCT"

  /** The fixed body site of every specimen, with the cell type as text. */
  function BodySite(cellType: string): Json {
    JObj(map[
      "coding" := JArr([JObj(map["system" := JStr(SnomedSystem), "code" := JStr("76752008"),
                                 "display" := JStr("Breast Structure")])]),
      "text" := JStr(cellType)
    ])
  }

  /** The Specimen of one sample annotation. The fields are read in the
      order `cellLine`, `specimenName`, `specimenID`, `cellType`. */
  function SpecimenFor(h: NameHash, row: Row): Result<Resource>
  {
    var cellLine :- Field(row, "cellLine");
    var specimenName :- Field(row, "specimenName");
    var specimenID :- Field(row, "specimenID");
    var cellType :- Field(row, "cellType");
    Success(Resource("Specimen", map[
      "id" := JStr(SpecimenId(h, specimenName)),
      "subject" := Reference("Patient", PatientId(h, cellLine)),
      "identifier" := JArr([
        Identifier("https://www.synapse.org/#specimenID", specimenID),
        Identifier("https://www.synapse.org/#specimenName", specimenName)]),
      "collection" := JObj(map["bodySite" := BodySite(cellType)])
    ]))
  }

  /** A sample annotation lacking one of the four fields raises KeyError,
      the first missing one in reading order; otherwise its Specimen is
      named after `specimenName`, has the Patient of `cellLine` as subject,
      the identifiers `specimenID` then `specimenName`, and the fixed body
      site with `cellType` as text. */
  lemma SpecimenForSpec(h: NameHash, row: Row)
    ensures SpecimenFor(h, row).Success? <==>
      Get(row, "cellLine").Some? && Get(row, "specimenName").Some? &&
      Get(row, "specimenID").Some? && Get(row, "cellType").Some?
    ensures SpecimenFor(h, row).Failure? ==> SpecimenFor(h, row).error == MissingField(
      if Get(row, "cellLine").None? then "cellLine"
      else if Get(row, "specimenName").None? then "specimenName"
      else if Get(row, "specimenID").None? then "specimenID"
      else "cellType")
    ensures SpecimenFor(h, row).Success? ==>
      && SpecimenFor(h, row).value.resourceType == "Specimen"
      && IdOf(SpecimenFor(h, row).value) == Some(SpecimenId(h, Get(row, "specimenName").value))
      && "subject" in SpecimenFor(h, row).value.fields
      && SpecimenFor(h, row).value.fields["subject"] == Reference("Patient", PatientId(h, Get(row, "cellLine").value))
      && "identifier" in SpecimenFor(h, row).value.fields
      && SpecimenFor(h, row).value.fields["identifier"] == JArr([
           Identifier("https://www.synapse.org/#specimenID", Get(row, "specimenID").value),
           Identifier("https://www.synapse.org/#specimenName", Get(row, "specimenName").value)])
      && "collection" in SpecimenFor(h, row).value.fields
      && SpecimenFor(h, row).value.fields["collection"] == JObj(map["bodySite" := BodySite(Get(row, "cellType").value)])
  {
  }

  // ---------------------------------------------------------------- tasks

  /** `{k: v for k, v in sample_annotation.items() if v.startswith('syn')}`,
      in the annotation's order. */
  function Assays(row: Row): (r: seq<Entry>)
    ensures forall i :: 0 <= i < |r| ==> r[i] in row && StartsWith(r[i].value, "syn")
    decreases |row|
  {
    if row == [] then []
    else Assays(row[..|row| - 1]) + if StartsWith(row[|row| - 1].value, "syn") then [row[|row| - 1]] else []
  }

  /** Exactly the entries whose value starts with `syn` are assays, in the
      annotation's order. */
  lemma {:induction false} AssaysSpec(row: Row, e: Entry)
    ensures e in Assays(row) <==> e in row && StartsWith(e.value, "syn")
    decreases |row|
  {
    if row != [] {
      AssaysSpec(row[..|row| - 1], e);
      assert row == row[..|row| - 1] + [row[|row| - 1]];
    }
  }

  /** The filter keeps the annotation's order: the assays of two runs of
      entries are those of the first followed by those of the second. */
  lemma {:induction false} AssaysAppend(a: Row, b: Row)
    ensures Assays(a + b) == Assays(a) + Assays(b)
    decreases |b|
  {
    if b == [] {
      assert a + b == a;
    } else {
      AssaysAppend(a, b[..|b| - 1]);
      assert (a + b)[..|a + b| - 1] == a + b[..|b| - 1];
    }
  }

  /** The part of a file handle the DocumentReference copies. */
  datatype FileHandle = FileHandle(etag: string, createdOn: string, contentType: string,
                                   fileName: string, contentMd5: string, contentSize: int)

  /** A file of the hierarchy: its Synapse id and its handle. */
  datatype HierarchyFile = HierarchyFile(id: string, handle: FileHandle)

  /** A folder of the hierarchy, with its `file_names`. */
  datatype Item = Item(fileNames: seq<HierarchyFile>)

  /** Every file of the hierarchy, folder by folder. */
  function Flatten(hierarchy: seq<Item>): seq<HierarchyFile>
    decreases |hierarchy|
  {
    if hierarchy == [] then [] else Flatten(hierarchy[..|hierarchy| - 1]) + hierarchy[|hierarchy| - 1].fileNames
  }

  /** The files with the given id, in order. */
  function Matching(files: seq<HierarchyFile>, synapseId: string): (r: seq<HierarchyFile>)
    ensures forall i :: 0 <= i < |r| ==> r[i].id == synapseId
    decreases |files|
  {
    if files == [] then []
    else Matching(files[..|files| - 1], synapseId) + if files[|files| - 1].id == synapseId then [files[|files| - 1]] else []
  }

  /** The `files_` list of `_document_references`. */
  function FindFiles(hierarchy: seq<Item>, synapseId: string): seq<HierarchyFile> {
    Matching(Flatten(hierarchy), synapseId)
  }

  lemma {:induction false} MatchingAppend(a: seq<HierarchyFile>, b: seq<HierarchyFile>, synapseId: string)
    ensures Matching(a + b, synapseId) == Matching(a, synapseId) + Matching(b, synapseId)
    decreases |b|
  {
    if b == [] {
      assert a + b == a;
    } else {
      MatchingAppend(a, b[..|b| - 1], synapseId);
      assert (a + b)[..|a + b| - 1] == a + b[..|b| - 1];
    }
  }

  /** The search finds every file of any folder whose id is the one asked
      for, and no other; the files of earlier folders come first. */
  lemma {:induction false} FindFilesSpec(hierarchy: seq<Item>, synapseId: string, f: HierarchyFile)
    ensures f in FindFiles(hierarchy, synapseId) <==>
      f.id == synapseId && exists k :: 0 <= k < |hierarchy| && f in hierarchy[k].fileNames
    decreases |hierarchy|
  {
    if hierarchy != [] {
      var init, last := hierarchy[..|hierarchy| - 1], hierarchy[|hierarchy| - 1];
      FindFilesSpec(init, synapseId, f);
      MatchingAppend(Flatten(init), last.fileNames, synapseId);
      MatchingMembers(last.fileNames, synapseId, f);
      assert forall k :: 0 <= k < |init| ==> init[k] == hierarchy[k];
    }
  }

  lemma {:induction false} MatchingMembers(files: seq<HierarchyFile>, synapseId: string, f: HierarchyFile)
    ensures f in Matching(files, synapseId) <==> f in files && f.id == synapseId
    decreases |files|
  {
    if files != [] {
      MatchingMembers(files[..|files| - 1], synapseId, f);
      assert files == files[..|files| - 1] + [files[|files| - 1]];
    }
  }

  lemma FindFilesAppend(a: seq<Item>, b: seq<Item>, synapseId: string)
    ensures FindFiles(a + b, synapseId) == FindFiles(a, synapseId) + FindFiles(b, synapseId)
  {
    FlattenAppend(a, b);
    MatchingAppend(Flatten(a), Flatten(b), synapseId);
  }

  lemma {:induction false} FlattenAppend(a: seq<Item>, b: seq<Item>)
    ensures Flatten(a + b) == Flatten(a) + Flatten(b)
    decreases |b|
  {
    if b == [] {
      assert a + b == a;
    } else {
      FlattenAppend(a, b[..|b| - 1]);
      assert (a + b)[..|a + b| - 1] == a + b[..|b| - 1];
    }
  }

  const Md5Extension: string := "http://aced-idp.org/fhir/StructureDefinition/md5"

  /** The DocumentReference of a found file: its id is the handle's etag;
      the patient and the Synapse id are those of the enclosing assay loop. */
  function DocumentReference(patientId: string, synapseId: string, f: HierarchyFile): (r: Resource)
    ensures r.resourceType == "DocumentReference" && IdOf(r) == Some(f.handle.etag)
    ensures "subject" in r.fields && r.fields["subject"] == Reference("Patient", patientId)
  {
    Resource("DocumentReference", map[
      "id" := JStr(f.handle.etag),
      "status" := JStr("current"),
      "subject" := Reference("Patient", patientId),
      "date" := JStr(f.handle.createdOn),
      "identifier" := JArr([Identifier(SynapseSystem, synapseId)]),
      "content" := JArr([JObj(map["attachment" := JObj(map[
        "contentType" := JStr(f.handle.contentType),
        "title" := JStr(f.handle.fileName),
        "extension" := JArr([JObj(map["url" := JStr(Md5Extension), "valueString" := JStr(f.handle.contentMd5)])]),
        "size" := JInt(f.handle.contentSize),
        "creation" := JStr(f.handle.createdOn)
      ])])])
    ])
  }

  /** `_document_references(synapse_id)` as a value. */
  function DocumentReferences(hierarchy: seq<Item>, patientId: string, synapseId: string): (r: seq<Resource>)
    ensures |r| == |FindFiles(hierarchy, synapseId)|
    ensures forall i :: 0 <= i < |r| ==> r[i] == DocumentReference(patientId, synapseId, FindFiles(hierarchy, synapseId)[i])
  {
    var files := FindFiles(hierarchy, synapseId);
    seq(|files|, i requires 0 <= i < |files| => DocumentReference(patientId, synapseId, files[i]))
  }

  /** `f"DocumentReference/{d_.id}"`, with Python's text `None` for a
      missing id. */
  function OutputFor(d: Resource): Json {
    var id := match IdOf(d) case Some(id) => id case None => "None";
    JObj(map[
      "type" := JObj(map["coding" := JArr([JObj(map["system" := JStr("http://hl7.org/fhir"), "code" := JStr("DocumentReference")])]),
                         "text" := JStr("DocumentReference")]),
      "valueReference" := Reference("DocumentReference", id)
    ])
  }

  function Outputs(docs: seq<Resource>): (r: seq<Json>)
    ensures |r| == |docs|
    ensures forall i :: 0 <= i < |r| ==> r[i] == OutputFor(docs[i])
  {
    seq(|docs|, i requires 0 <= i < |docs| => OutputFor(docs[i]))
  }

  /** The Task of one assay of a sample: it is for the sample's Patient,
      focuses on and takes as input the sample's Specimen, and lists the
      found DocumentReferences as outputs. */
  function TaskFor(h: NameHash, specimenName: string, patientId: string, specimenId: string, assay: string,
                   docs: seq<Resource>): (r: Resource)
    ensures r.resourceType == "Task" && IdOf(r) == Some(TaskId(h, specimenName, assay))
    ensures "focus" in r.fields && r.fields["focus"] == Reference("Specimen", specimenId)
    ensures "for" in r.fields && r.fields["for"] == Reference("Patient", patientId)
    ensures "input" in r.fields && r.fields["input"].JArr? && |r.fields["input"].items| == 1
    ensures r.fields["input"].items[0].JObj? && "valueReference" in r.fields["input"].items[0].fields
    ensures r.fields["input"].items[0].fields["valueReference"] == r.fields["focus"]
    ensures "output" in r.fields && r.fields["output"] == JArr(Outputs(docs))
  {
    Resource("Task", map[
      "id" := JStr(TaskId(h, specimenName, assay)),
      "for" := Reference("Patient", patientId),
      "focus" := Reference("Specimen", specimenId),
      "status" := JStr("completed"),
      "intent" := JStr("order"),
      "input" := JArr([JObj(map[
        "type" := JObj(map["coding" := JArr([JObj(map["system" := JStr("http://hl7.org/fhir"), "code" := JStr("Specimen")])]),
                           "text" := JStr("Specimen")]),
        "valueReference" := Reference("Specimen", specimenId)
      ])]),
      "output" := JArr(Outputs(docs))
    ])
  }

  /** What the two files of `transform_tasks` receive. */
  datatype TaskFiles = TaskFiles(tasks: seq<Resource>, documents: seq<Resource>)

  /** Writing `x` and then `y`. */
  function Join(x: TaskFiles, y: TaskFiles): TaskFiles {
    TaskFiles(x.tasks + y.tasks, x.documents + y.documents)
  }

  /** The names the Tasks of one sample annotation are built from. */
  datatype Sample = Sample(specimenName: string, patientId: string, specimenId: string)

  /** The writes for one assay: its Task, then the DocumentReferences found
      for its Synapse id. */
  function AssayWrite(h: NameHash, hierarchy: seq<Item>, sample: Sample, assay: Entry): (r: TaskFiles)
    ensures |r.tasks| == 1
  {
    var docs := DocumentReferences(hierarchy, sample.patientId, assay.value);
    TaskFiles([TaskFor(h, sample.specimenName, sample.patientId, sample.specimenId, assay.key, docs)], docs)
  }

  /** The writes of several steps, one after the other. */
  function Concat(ws: seq<TaskFiles>): TaskFiles
    decreases |ws|
  {
    if ws == [] then TaskFiles([], []) else Join(Concat(ws[..|ws| - 1]), ws[|ws| - 1])
  }

  lemma {:induction false} ConcatAppend(x: seq<TaskFiles>, y: seq<TaskFiles>)
    ensures Concat(x + y) == Join(Concat(x), Concat(y))
    decreases |y|
  {
    if y == [] {
      assert x + y == x;
    } else {
      var init, last := y[..|y| - 1], y[|y| - 1];
      ConcatAppend(x, init);
      assert (x + y)[..|x + y| - 1] == x + init;
      var cx, ci := Concat(x), Concat(init);
      assert (cx.tasks + ci.tasks) + last.tasks == cx.tasks + (ci.tasks + last.tasks);
      assert (cx.documents + ci.documents) + last.documents == cx.documents + (ci.documents + last.documents);
    }
  }

  /** When every step writes one Task, the Tasks are the steps' Tasks in
      order. */
  lemma {:induction false} ConcatTasks(ws: seq<TaskFiles>)
    requires forall i :: 0 <= i < |ws| ==> |ws[i].tasks| == 1
    ensures |Concat(ws).tasks| == |ws|
    ensures forall i :: 0 <= i < |ws| ==> Concat(ws).tasks[i] == ws[i].tasks[0]
    decreases |ws|
  {
    if ws != [] {
      var init := ws[..|ws| - 1];
      ConcatTasks(init);
      var r := Concat(ws);
      assert r.tasks == Concat(init).tasks + ws[|ws| - 1].tasks;
      forall i | 0 <= i < |ws| ensures r.tasks[i] == ws[i].tasks[0] {
        if i < |init| {
          assert r.tasks[i] == Concat(init).tasks[i] && init[i] == ws[i];
        }
      }
    }
  }

  /** The writes of each assay of one sample, in assay order. */
  function PerAssay(h: NameHash, hierarchy: seq<Item>, sample: Sample, assays: seq<Entry>): (r: seq<TaskFiles>)
    ensures |r| == |assays|
    ensures forall i :: 0 <= i < |assays| ==> r[i] == AssayWrite(h, hierarchy, sample, assays[i])
  {
    seq(|assays|, i requires 0 <= i < |assays| => AssayWrite(h, hierarchy, sample, assays[i]))
  }

  /** The writes for the assays of one sample. */
  function AssayWrites(h: NameHash, hierarchy: seq<Item>, sample: Sample, assays: seq<Entry>): TaskFiles {
    Concat(PerAssay(h, hierarchy, sample, assays))
  }

  /** The sample of an annotation: `cellLine` and `specimenName` are read
      before anything is written. */
  function SampleOf(h: NameHash, row: Row): (r: Result<Sample>)
    ensures r.Success? <==> Get(row, "cellLine").Some? && Get(row, "specimenName").Some?
    ensures r.Failure? ==> r.error == MissingField(if Get(row, "cellLine").None? then "cellLine" else "specimenName")
  {
    var cellLine :- Field(row, "cellLine");
    var specimenName :- Field(row, "specimenName");
    Success(Sample(specimenName, PatientId(h, cellLine), SpecimenId(h, specimenName)))
  }

  /** The writes for one sample annotation. */
  function RowTaskWrites(h: NameHash, hierarchy: seq<Item>, row: Row): Result<TaskFiles> {
    var sample :- SampleOf(h, row);
    Success(AssayWrites(h, hierarchy, sample, Assays(row)))
  }

  /** Each Task of a sample is named after the sample and one assay, in
      assay order; its outputs are the DocumentReferences found for that
      assay. */
  lemma AssayWritesSpec(h: NameHash, hierarchy: seq<Item>, sample: Sample, assays: seq<Entry>)
    ensures |AssayWrites(h, hierarchy, sample, assays).tasks| == |assays|
    ensures forall i :: 0 <= i < |assays| ==>
      AssayWrites(h, hierarchy, sample, assays).tasks[i] == AssayWrite(h, hierarchy, sample, assays[i]).tasks[0]
  {
    ConcatTasks(PerAssay(h, hierarchy, sample, assays));
  }

  /** Writes are not deduplicated across assays: the writes of `a + b` are
      those of `a` followed by those of `b`, so a file found by two assays
      is written twice. */
  lemma AssayWritesAppend(h: NameHash, hierarchy: seq<Item>, sample: Sample, a: seq<Entry>, b: seq<Entry>)
    ensures AssayWrites(h, hierarchy, sample, a + b) ==
      Join(AssayWrites(h, hierarchy, sample, a), AssayWrites(h, hierarchy, sample, b))
  {
    var pa, pb := PerAssay(h, hierarchy, sample, a), PerAssay(h, hierarchy, sample, b);
    assert PerAssay(h, hierarchy, sample, a + b) == pa + pb;
    ConcatAppend(pa, pb);
  }

  /** The writes of a single assay. */
  lemma AssayWritesOne(h: NameHash, hierarchy: seq<Item>, sample: Sample, assay: Entry)
    ensures AssayWrites(h, hierarchy, sample, [assay]) == AssayWrite(h, hierarchy, sample, assay)
  {
    var w := AssayWrite(h, hierarchy, sample, assay);
    assert PerAssay(h, hierarchy, sample, [assay]) == [w];
    assert [w][..0] == [];
    assert Concat([w]) == Join(TaskFiles([], []), w);
    assert [] + w.tasks == w.tasks && [] + w.documents == w.documents;
  }

  /** A Task's `output` names, one to one and in order, the
      DocumentReferences written with it. */
  lemma TaskOutputsResolve(h: NameHash, hierarchy: seq<Item>, specimenName: string, patientId: string,
                           specimenId: string, assay: Entry, i: nat)
    requires i < |DocumentReferences(hierarchy, patientId, assay.value)|
    ensures var docs := DocumentReferences(hierarchy, patientId, assay.value);
      var task := TaskFor(h, specimenName, patientId, specimenId, assay.key, docs);
      && |task.fields["output"].items| == |docs|
      && task.fields["output"].items[i].fields["valueReference"] ==
           Reference(docs[i].resourceType, IdOf(docs[i]).value)
  {
  }
}
