/** How the records the commands of mcf10a_etl/transform.py write refer to
    one another: Specimens and ResearchSubjects to Patients, Tasks to the
    Specimen and Patient of their annotation, and Task outputs to the
    DocumentReferences written with them. */
module Mcf10aLinks {
  import opened Common
  import opened Naming
  import opened Resources
  import opened Mcf10aRecords
  import opened Mcf10aCommands

  /** The subject of every Specimen is a Patient written by
      `transform_subjects` from the same annotations. */
  lemma SpecimenSubjectResolves(h: NameHash, rows: seq<Row>, i: nat)
    requires Demographics(rows).Success? && i < |rows| && SpecimenFor(h, rows[i]).Success?
    ensures exists p :: (p in Patients(h, Demographics(rows).value) && IdOf(p).Some? &&
      SpecimenFor(h, rows[i]).value.fields["subject"] == Reference(p.resourceType, IdOf(p).value))
  {
    SpecimenLinks(h, rows[i]);
    var c := Get(rows[i], "cellLine").value;
    ValuesSpec(rows, "cellLine", c);
    PatientsPerCellLine(h, rows, c);
  }

  /** The Patient a ResearchSubject names is written whenever its cell line
      occurs among the annotations. A cell line of the summary table that
      no annotation has gets a subject whose Patient is never written. */
  lemma SubjectPatientResolves(h: NameHash, rows: seq<Row>, c: string)
    requires Demographics(rows).Success? && c in Values(rows, "cellLine")
    ensures exists p :: (p in Patients(h, Demographics(rows).value) && IdOf(p).Some? &&
      SubjectFor(h, c).fields["individual"] == Reference(p.resourceType, IdOf(p).value))
  {
    PatientsPerCellLine(h, rows, c);
  }

  /** Every Task written comes from an annotation that has `cellLine` and
      `specimenName`: it is for that annotation's Patient and focuses on
      that annotation's Specimen. */
  lemma {:induction false} TaskOfAnnotation(h: NameHash, hierarchy: seq<Item>, rows: seq<Row>, t: Resource)
    requires t in TasksRun(h, hierarchy, rows).files.tasks
    ensures exists i :: 0 <= i < |rows| && TaskFromRow(h, rows[i], t)
    decreases |rows|
  {
    var init, last := rows[..|rows| - 1], rows[|rows| - 1];
    var prev := TasksRun(h, hierarchy, init);
    if t in prev.files.tasks {
      TaskOfAnnotation(h, hierarchy, init, t);
      var i :| 0 <= i < |init| && TaskFromRow(h, init[i], t);
      assert rows[i] == init[i];
    } else {
      var sample := SampleOf(h, last).value;
      var assays := Assays(last);
      var w := AssayWrites(h, hierarchy, sample, assays);
      assert t in w.tasks;
      AssayWritesSpec(h, hierarchy, sample, assays);
      var j :| 0 <= j < |w.tasks| && w.tasks[j] == t;
      assert t == AssayWrite(h, hierarchy, sample, assays[j]).tasks[0];
      assert TaskFromRow(h, rows[|rows| - 1], t);
    }
  }

  /** `t` is a Task built from annotation `row`. */
  predicate TaskFromRow(h: NameHash, row: Row, t: Resource) {
    && Get(row, "cellLine").Some? && Get(row, "specimenName").Some?
    && t.resourceType == "Task"
    && "focus" in t.fields && t.fields["focus"] == Reference("Specimen", SpecimenId(h, Get(row, "specimenName").value))
    && "for" in t.fields && t.fields["for"] == Reference("Patient", PatientId(h, Get(row, "cellLine").value))
  }

  /** When every annotation has its Specimen, every Task focuses on one of
      the Specimens `transform_specimens` writes and is for that Specimen's
      subject. */
  lemma TaskFocusResolves(h: NameHash, hierarchy: seq<Item>, rows: seq<Row>, t: Resource)
    requires t in TasksRun(h, hierarchy, rows).files.tasks
    requires forall i :: 0 <= i < |rows| ==> SpecimenFor(h, rows[i]).Success?
    ensures "focus" in t.fields && "for" in t.fields
    ensures exists i :: (0 <= i < |rows| && IdOf(SpecimenFor(h, rows[i]).value).Some? &&
      "subject" in SpecimenFor(h, rows[i]).value.fields &&
      t.fields["focus"] == Reference("Specimen", IdOf(SpecimenFor(h, rows[i]).value).value) &&
      t.fields["for"] == SpecimenFor(h, rows[i]).value.fields["subject"])
  {
    TaskOfAnnotation(h, hierarchy, rows, t);
    var i :| 0 <= i < |rows| && TaskFromRow(h, rows[i], t);
    SpecimenLinks(h, rows[i]);
    var specimen := SpecimenFor(h, rows[i]).value;
    assert t.fields["focus"] == Reference("Specimen", IdOf(specimen).value);
    assert t.fields["for"] == specimen.fields["subject"];
  }

  /** The two names a Specimen carries. */
  lemma SpecimenLinks(h: NameHash, row: Row)
    requires SpecimenFor(h, row).Success?
    ensures Get(row, "cellLine").Some? && Get(row, "specimenName").Some?
    ensures IdOf(SpecimenFor(h, row).value) == Some(SpecimenId(h, Get(row, "specimenName").value))
    ensures "subject" in SpecimenFor(h, row).value.fields
    ensures SpecimenFor(h, row).value.fields["subject"] == Reference("Patient", PatientId(h, Get(row, "cellLine").value))
  {
  }

  /** No deduplication across assays: two assay names carrying the same
      Synapse id write its DocumentReferences twice. */
  lemma RepeatedAssayWritesTwice(h: NameHash, hierarchy: seq<Item>, sample: Sample, a: Entry, b: Entry)
    requires a.key != b.key && a.value == b.value
    ensures var docs := DocumentReferences(hierarchy, sample.patientId, a.value);
      AssayWrites(h, hierarchy, sample, [a, b]).documents == docs + docs
  {
    assert [a, b] == [a] + [b];
    AssayWritesAppend(h, hierarchy, sample, [a], [b]);
    AssayWritesOne(h, hierarchy, sample, a);
    AssayWritesOne(h, hierarchy, sample, b);
  }

  /** The number of `output` entries of some Tasks. */
  function OutputCount(tasks: seq<Resource>): nat
    decreases |tasks|
  {
    if tasks == [] then 0
    else
      var t := tasks[|tasks| - 1];
      OutputCount(tasks[..|tasks| - 1]) + if "output" in t.fields && t.fields["output"].JArr? then |t.fields["output"].items| else 0
  }

  lemma {:induction false} OutputCountAppend(a: seq<Resource>, b: seq<Resource>)
    ensures OutputCount(a + b) == OutputCount(a) + OutputCount(b)
    decreases |b|
  {
    if b == [] {
      assert a + b == a;
    } else {
      OutputCountAppend(a, b[..|b| - 1]);
      assert (a + b)[..|a + b| - 1] == a + b[..|b| - 1];
    }
  }

  /** The DocumentReference file holds one line per Task output. */
  predicate Balanced(w: TaskFiles) {
    |w.documents| == OutputCount(w.tasks)
  }

  lemma JoinBalanced(x: TaskFiles, y: TaskFiles)
    requires Balanced(x) && Balanced(y)
    ensures Balanced(Join(x, y))
  {
    OutputCountAppend(x.tasks, y.tasks);
  }

  lemma AssayWriteBalanced(h: NameHash, hierarchy: seq<Item>, sample: Sample, assay: Entry)
    ensures Balanced(AssayWrite(h, hierarchy, sample, assay))
  {
    var w := AssayWrite(h, hierarchy, sample, assay);
    assert w.tasks[..0] == [];
  }

  lemma {:induction false} ConcatBalanced(ws: seq<TaskFiles>)
    requires forall i :: 0 <= i < |ws| ==> Balanced(ws[i])
    ensures Balanced(Concat(ws))
    decreases |ws|
  {
    if ws == [] {
      assert OutputCount([]) == 0;
    } else {
      ConcatBalanced(ws[..|ws| - 1]);
      JoinBalanced(Concat(ws[..|ws| - 1]), ws[|ws| - 1]);
    }
  }

  /** Whatever the Tasks loop has written, stopped by an error or not, the
      DocumentReference file has exactly one line per output entry of the
      Task file. */
  lemma {:induction false} TasksRunBalanced(h: NameHash, hierarchy: seq<Item>, rows: seq<Row>)
    ensures Balanced(TasksRun(h, hierarchy, rows).files)
    decreases |rows|
  {
    if rows == [] {
      assert OutputCount([]) == 0;
    } else {
      var init, last := rows[..|rows| - 1], rows[|rows| - 1];
      TasksRunBalanced(h, hierarchy, init);
      match RowTaskWrites(h, hierarchy, last)
      case Success(w) =>
        var sample := SampleOf(h, last).value;
        var ws := PerAssay(h, hierarchy, sample, Assays(last));
        forall i | 0 <= i < |ws| ensures Balanced(ws[i]) {
          AssayWriteBalanced(h, hierarchy, sample, Assays(last)[i]);
        }
        ConcatBalanced(ws);
        JoinBalanced(TasksRun(h, hierarchy, init).files, w);
      case Failure(_) =>
    }
  }
}
