/** The commands of mcf10a_etl/transform.py as methods: each reads its
    input records, loops over them and appends what it writes to the output
    sequences of its files. An exception raised part-way leaves what was
    written before it in place and is returned as the error. */
module Mcf10aCommands {
  import opened Common
  import opened Naming
  import opened Resources
  import opened Mcf10aRecords

  /** The ResearchSubject loop over the set of cell lines: one subject per
      cell line, in some order with no repeats. */
  method WriteSubjects(h: NameHash, cells: set<string>) returns (subjects: seq<Resource>, ghost order: seq<string>)
    ensures NoDuplicates(order) && (forall c :: c in order <==> c in cells)
    ensures |subjects| == |order| == |cells|
    ensures forall i :: 0 <= i < |order| ==> subjects[i] == SubjectFor(h, order[i])
    ensures |subjects| == |cells|
    ensures forall c :: c in cells ==> SubjectFor(h, c) in subjects
    ensures forall s :: s in subjects ==> exists c :: c in cells && s == SubjectFor(h, c)
  {
    var remaining := cells;
    subjects, order := [], [];
    while remaining != {}
      invariant remaining <= cells
      invariant forall c :: c in order <==> c in cells && c !in remaining
      invariant NoDuplicates(order)
      invariant |order| + |remaining| == |cells|
      invariant |subjects| == |order|
      invariant forall i :: 0 <= i < |order| ==> subjects[i] == SubjectFor(h, order[i])
      decreases remaining
    {
      var c :| c in remaining;
      subjects := subjects + [SubjectFor(h, c)];
      order := order + [c];
      remaining := remaining - {c};
    }
  }

  /** The Patient loop over the items of the `demographics` dict. */
  method WritePatients(h: NameHash, items: Items) returns (patients: seq<Resource>)
    ensures patients == Patients(h, items)
  {
    patients := [];
    var i := 0;
    while i < |items|
      invariant 0 <= i <= |items|
      invariant |patients| == i
      invariant forall j :: 0 <= j < i ==> patients[j] == PatientFor(h, items[j].0, items[j].1)
    {
      patients := patients + [PatientFor(h, items[i].0, items[i].1)];
      i := i + 1;
    }
  }

  /** `transform_subjects`: the cell-line set is built before anything is
      opened; the ResearchSubject file is written in full before the
      `demographics` dict is built, so a KeyError there leaves the subjects
      written and no Patient. */
  method TransformSubjects(h: NameHash, summaries: seq<Row>, annotations: seq<Row>)
    returns (subjects: seq<Resource>, patients: seq<Resource>, error: Option<Error>, ghost order: seq<string>)
    ensures CellLineNames(summaries).Failure? ==>
      error == Some(CellLineNames(summaries).error) && subjects == [] && patients == []
    ensures CellLineNames(summaries).Success? ==>
      && NoDuplicates(order) && (forall c :: c in order <==> c in CellLineNames(summaries).value)
      && |subjects| == |order| == |CellLineNames(summaries).value|
      && (forall i :: 0 <= i < |order| ==> subjects[i] == SubjectFor(h, order[i]))
    ensures CellLineNames(summaries).Success? && Demographics(annotations).Failure? ==>
      error == Some(Demographics(annotations).error) && patients == []
    ensures CellLineNames(summaries).Success? && Demographics(annotations).Success? ==>
      error.None? && patients == Patients(h, Demographics(annotations).value)
  {
    subjects, patients, error, order := [], [], None, [];
    var cells := CellLineNames(summaries);
    if cells.Failure? {
      return [], [], Some(cells.error), [];
    }
    subjects, order := WriteSubjects(h, cells.value);
    var demographics := Demographics(annotations);
    if demographics.Failure? {
      error := Some(demographics.error);
      return;
    }
    patients := WritePatients(h, demographics.value);
  }

  /** `transform_specimens`: the cell-line set is built first (a summary
      without `Cell_Line` stops it before the file is opened); then one
      Specimen per annotation, in order, until an annotation lacks a field. */
  method TransformSpecimens(h: NameHash, summaries: seq<Row>, annotations: seq<Row>)
    returns (specimens: seq<Resource>, error: Option<Error>)
    ensures CellLineNames(summaries).Failure? ==>
      error == Some(CellLineNames(summaries).error) && specimens == []
    ensures CellLineNames(summaries).Success? ==>
      && |specimens| <= |annotations|
      && (forall i :: 0 <= i < |specimens| ==>
            SpecimenFor(h, annotations[i]).Success? && specimens[i] == SpecimenFor(h, annotations[i]).value)
      && (error.None? <==> |specimens| == |annotations|)
      && (error.Some? ==>
            SpecimenFor(h, annotations[|specimens|]).Failure? &&
            error.value == SpecimenFor(h, annotations[|specimens|]).error)
  {
    specimens := [];
    var cells := CellLineNames(summaries);
    if cells.Failure? {
      return [], Some(cells.error);
    }
    var i := 0;
    while i < |annotations|
      invariant 0 <= i <= |annotations| && |specimens| == i
      invariant forall j :: 0 <= j < i ==>
        SpecimenFor(h, annotations[j]).Success? && specimens[j] == SpecimenFor(h, annotations[j]).value
    {
      var specimen := SpecimenFor(h, annotations[i]);
      if specimen.Failure? {
        return specimens, Some(specimen.error);
      }
      specimens := specimens + [specimen.value];
      i := i + 1;
    }
    return specimens, None;
  }

  /** `_document_references(synapse_id)`: the nested loops collect
      `files_`, then one DocumentReference is rendered per file. */
  method CollectDocumentReferences(hierarchy: seq<Item>, patientId: string, synapseId: string)
    returns (docs: seq<Resource>)
    ensures docs == DocumentReferences(hierarchy, patientId, synapseId)
  {
    var files: seq<HierarchyFile> := [];
    var k := 0;
    while k < |hierarchy|
      invariant 0 <= k <= |hierarchy|
      invariant files == FindFiles(hierarchy[..k], synapseId)
    {
      var names := hierarchy[k].fileNames;
      var j := 0;
      ghost var before := files;
      while j < |names|
        invariant 0 <= j <= |names|
        invariant files == before + Matching(names[..j], synapseId)
      {
        assert names[..j + 1][..j] == names[..j];
        if names[j].id == synapseId {
          files := files + [names[j]];
        }
        j := j + 1;
      }
      assert names[..j] == names;
      FindFilesStep(hierarchy, k, synapseId);
      k := k + 1;
    }
    assert hierarchy[..k] == hierarchy;
    docs := [];
    var i := 0;
    while i < |files|
      invariant 0 <= i <= |files| && |docs| == i
      invariant forall j :: 0 <= j < i ==> docs[j] == DocumentReference(patientId, synapseId, files[j])
    {
      docs := docs + [DocumentReference(patientId, synapseId, files[i])];
      i := i + 1;
    }
  }

  /** Searching one more folder appends the matches in it. */
  lemma FindFilesStep(hierarchy: seq<Item>, k: nat, synapseId: string)
    requires k < |hierarchy|
    ensures FindFiles(hierarchy[..k + 1], synapseId) ==
      FindFiles(hierarchy[..k], synapseId) + Matching(hierarchy[k].fileNames, synapseId)
  {
    assert hierarchy[..k + 1][..k] == hierarchy[..k];
    MatchingAppend(Flatten(hierarchy[..k]), hierarchy[k].fileNames, synapseId);
  }

  /** The assay loop of one sample annotation: for each assay its Task,
      then the DocumentReferences it found. */
  method WriteSampleTasks(h: NameHash, hierarchy: seq<Item>, sample: Sample, assays: seq<Entry>)
    returns (written: TaskFiles)
    ensures written == AssayWrites(h, hierarchy, sample, assays)
  {
    written := TaskFiles([], []);
    var j := 0;
    while j < |assays|
      invariant 0 <= j <= |assays|
      invariant written == AssayWrites(h, hierarchy, sample, assays[..j])
    {
      var docs := CollectDocumentReferences(hierarchy, sample.patientId, assays[j].value);
      var task := TaskFor(h, sample.specimenName, sample.patientId, sample.specimenId, assays[j].key, docs);
      AssayWritesAppend(h, hierarchy, sample, assays[..j], [assays[j]]);
      assert assays[..j + 1] == assays[..j] + [assays[j]];
      AssayWritesOne(h, hierarchy, sample, assays[j]);
      written := TaskFiles(written.tasks + [task], written.documents + docs);
      j := j + 1;
    }
    assert assays[..j] == assays;
  }

  /** The run of the annotation loop of `transform_tasks`: what it has
      written and the error that stopped it, if any. */
  datatype TaskRun = TaskRun(files: TaskFiles, error: Option<Error>)

  /** The annotation loop of `transform_tasks` as a value: it stops at the
      first annotation lacking `cellLine` or `specimenName`. */
  function TasksRun(h: NameHash, hierarchy: seq<Item>, rows: seq<Row>): TaskRun
    decreases |rows|
  {
    if rows == [] then TaskRun(TaskFiles([], []), None)
    else
      var prev := TasksRun(h, hierarchy, rows[..|rows| - 1]);
      if prev.error.Some? then prev
      else match RowTaskWrites(h, hierarchy, rows[|rows| - 1])
        case Success(w) => TaskRun(Join(prev.files, w), None)
        case Failure(e) => TaskRun(prev.files, Some(e))
  }

  /** `transform_tasks`: the cell-line set is built first; then, per
      annotation, its Tasks and DocumentReferences, the Task of an assay
      before its DocumentReferences. */
  method TransformTasks(h: NameHash, summaries: seq<Row>, annotations: seq<Row>, hierarchy: seq<Item>)
    returns (tasks: seq<Resource>, documents: seq<Resource>, error: Option<Error>)
    ensures CellLineNames(summaries).Failure? ==>
      error == Some(CellLineNames(summaries).error) && tasks == [] && documents == []
    ensures CellLineNames(summaries).Success? ==>
      TaskRun(TaskFiles(tasks, documents), error) == TasksRun(h, hierarchy, annotations)
  {
    var cells := CellLineNames(summaries);
    if cells.Failure? {
      return [], [], Some(cells.error);
    }
    var written := TaskFiles([], []);
    var i := 0;
    while i < |annotations|
      invariant 0 <= i <= |annotations|
      invariant TasksRun(h, hierarchy, annotations[..i]) == TaskRun(written, None)
    {
      assert annotations[..i + 1][..i] == annotations[..i];
      var sample := SampleOf(h, annotations[i]);
      if sample.Failure? {
        TasksRunStops(h, hierarchy, annotations, i + 1);
        return written.tasks, written.documents, Some(sample.error);
      }
      var w := WriteSampleTasks(h, hierarchy, sample.value, Assays(annotations[i]));
      written := TaskFiles(written.tasks + w.tasks, written.documents + w.documents);
      i := i + 1;
    }
    assert annotations[..i] == annotations;
    return written.tasks, written.documents, None;
  }

  /** Once a prefix of the annotations has failed, the run is that
      prefix's. */
  lemma {:induction false} TasksRunStops(h: NameHash, hierarchy: seq<Item>, rows: seq<Row>, n: nat)
    requires n <= |rows| && TasksRun(h, hierarchy, rows[..n]).error.Some?
    ensures TasksRun(h, hierarchy, rows) == TasksRun(h, hierarchy, rows[..n])
    decreases |rows| - n
  {
    if n < |rows| {
      assert rows[..n + 1][..n] == rows[..n];
      TasksRunStops(h, hierarchy, rows, n + 1);
    } else {
      assert rows[..n] == rows;
    }
  }
}
