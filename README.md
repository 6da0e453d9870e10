# MCF10A FHIR transforms, modelled in Dafny

This project models the two transforms of the MCF10A ETL that turn the
annotations of the LINCS MCF10A Molecular Deep Dive into FHIR resources.

* **The substance/specimen transform** (`transform/substance_transform.py`).
  It walks the sample annotations and the specimen stubs in lockstep. Each
  annotation names two ligand slots. A slot with the key `"{ligand}-{dose}"`,
  other than `none-0`, creates one Substance, on the first occurrence of that
  key in the run. Each stub becomes a Specimen: its identifier is replaced,
  and it gets a `processing` entry with additive references to the
  Substances and a synthetic timestamp. Every resource goes through `emit`.
  `emit` opens one output file per resource type, on first use. It also keeps
  a run-wide set of the identities already written, so each identity is
  written at most once.
* **The record builders** (`mcf10a_etl/transform.py`). These are the
  ResearchStudy of the project, and one ResearchSubject per cell line of the
  summary table. There is one Patient per cell line of the annotations, with
  the last annotation's demographics. There is one Specimen per annotation.
  For each annotation field whose value is a Synapse id (`syn…`), there is
  one Task, plus the DocumentReferences of the hierarchy files with that id.

Modules, in dependency order:

| module | file | what it holds |
|---|---|---|
| `Common` | common.dfy | `Option`, `Result` with the Python exception kinds, records as ordered entries, `record[k]` and `record.get(k)` |
| `Text` | text.dfy | `str(n)` and `int(s)` on decimal text, and the round trip between them |
| `Naming` | naming.dfy | name-based ids: `uuid5(uuid3(NAMESPACE_DNS, 'aced-ipd.org'), key)` over arbitrary hash functions |
| `Resources` | resources.dfy | FHIR resources as a type name plus JSON fields, identities, references |
| `Vocabulary` | vocabulary.dfy | `code_mappings` |
| `Timepoint` | timepoint.dfy | `time_parser` |
| `Emission` | emission.dfy | `emit` and `close_all_emitters`: the state as a value (`AfterEmit`), its invariant, and the `Emitter` class proved against it |
| `Substances` | substances.dfy | one slot, one row and a whole run of the row loop, as functions |
| `SubstanceRun` | substance_run.dfy | what a whole run emits: Substances, Specimens, and how the references between them resolve |
| `SubstancePipeline` | substance_pipeline.dfy | `emit_specimen` and the row loop as methods over the `Emitter` |
| `Mcf10aRecords` | mcf10a_records.dfy | the record builders of `mcf10a_etl/transform.py` as functions |
| `Mcf10aCommands` | mcf10a_commands.dfy | the `subjects`, `specimens` and `tasks` commands as loops appending to their output files |
| `Mcf10aLinks` | mcf10a_links.dfy | how the written records refer to one another |

Modelling choices:

* **Name-based ids.** `uuid3` and `uuid5` are two arbitrary functions, held
  in a `NameHash` value that every builder takes. No property relies on them
  being injective.
* **Identity.** The identity of a resource (`relative_path()`) is the pair
  of its resource type and its id.
* **Input records.** An input record is its entries in insertion order.
  `record[k]` on a missing key gives the error `MissingField(k)`, Python's
  KeyError. `int(x)` on bad text gives `NotAnInteger`, Python's ValueError.
  `int(None)` gives `NoValue`, Python's TypeError. The failed assertion of
  `code_mappings` gives `UnmappedLigand`.
* **Errors.** An exception stops the run where it is raised. Whatever was
  written before it stays written.
* **Output files.** An output file is the sequence of records appended to
  it. `Emission.Ndjson` gives the text of such a file.

Behaviours of the code worth noting, which the model keeps as written:

* The Substance key is `"{ligand}-{dose}"` only; no specimen name scopes it.
* Only `none-0` is skipped; `ctrl` creates a Substance like any other
  ligand.
* `zip` pairs the two streams by position and drops the extra lines of the
  longer one. Unequal lengths are not an error.
* `close_all_emitters` runs only when the loop finishes. An exception
  leaves every file open.
* The first-slot additive reference is always written. For a `none`/`0`
  first slot it names a Substance that is never created
  (`SubstanceRun.RunAdditivesResolve`).
* The second slot's Substance puts the category URL under `code`, the
  first slot's under `system`.
* A DocumentReference's identifier is the Synapse id the enclosing loop is
  at, and its subject is the enclosing sample's Patient. These are the
  values of the closure's outer variables at the call.
* A ResearchSubject is written for every `Cell_Line` of the summary table.
  Its Patient is written only when that cell line occurs in the annotations
  (`Mcf10aLinks.SubjectPatientResolves`).
* In `time_parser` the day field is `"0" + str(days)`. From day 10 on it
  has three characters (`Timepoint.TimeDayOverflow`).

## Model

| member | source | states |
|---|---|---|
| Emission.AfterEmitSpec | transform/substance_transform.py:34-45 | The identity is always added to the written set. An identity written before leaves the state unchanged. A new one appends the record to its type's stream, opening it at `<out>/<Type>.ndjson` if it does not exist. Every other stream stays as it was. |
| Emission.AfterEmitAt | transform/substance_transform.py:36-43 | Seen from one type's stream, an emit appends the record exactly when it is new and of that type. The stream then exists exactly when it existed before or this emit opened it. |
| Emission.Closed | transform/substance_transform.py:29-32 | Closing marks every opened stream closed. It keeps the stream set, the records written and the identity set. |
| Emission.InitialConsistent | transform/substance_transform.py:19-20 | The empty registries satisfy the emitter invariant. |
| Emission.AfterEmitConsistent | transform/substance_transform.py:34-45 | `emit` keeps the invariant: every opened stream is non-empty and holds only its own type, each identity once. The written set is exactly the identities the streams hold. |
| Emission.AfterEmitAllConsistent | transform/substance_transform.py:34-45 | Any sequence of emits keeps the invariant. |
| Emission.AfterEmitAllAppend | transform/substance_transform.py:34-45 | Emitting `a` then `b` is emitting `a + b`. |
| Emission.AfterEmitAllIds | transform/substance_transform.py:45 | After a sequence of emits, the written set is the old set plus the identities of all records emitted; it only grows. |
| Emission.AfterEmitAllWritten | transform/substance_transform.py:36-39 | Each type's stream gets, in order, the first occurrence of every identity of that type that was not written before. |
| Emission.AfterEmitAllOpened | transform/substance_transform.py:37-38 | A stream exists exactly when it existed before or something new of its type was written. Streams are opened lazily. |
| Emission.AfterEmitAllOnce | transform/substance_transform.py:34-45 | From empty registries, a type's stream exists iff a record of that type was emitted. It holds each identity of that type exactly once, as its first emitted record. |
| Emission.FreshDistinct | transform/substance_transform.py:36-45 | The first occurrences have distinct identities, and they carry exactly the identities not seen before. |
| Emission.NdjsonLines | transform/substance_transform.py:39-43 | When no record's JSON holds a newline, a file of `n` records holds exactly `n` newlines and ends with one. |
| Emission.Emitter.constructor | transform/substance_transform.py:19-20 | The emitter starts with no streams and no identities, valid and writable. |
| Emission.Emitter.Emit | transform/substance_transform.py:34-45 | The new state is `AfterEmit` of the old one. The invariant and writability are kept. |
| Emission.Emitter.CloseAll | transform/substance_transform.py:29-32 | The new state is `Closed` of the old one. The invariant is kept. |
| Text.ParseDecimal | transform/substance_transform.py:75-78 | `int(str(n)) == n` for every non-negative `n`. |
| Timepoint.EncodeTime | transform/substance_transform.py:75-85 | The encoder fails with ValueError exactly when the text is not an integer. |
| Timepoint.TimeParser | transform/substance_transform.py:73-85 | A row without `experimentalTimePoint` fails with TypeError. Otherwise the row's value is encoded. |
| Timepoint.TimeFirstDay | transform/substance_transform.py:80-85 | Below 24 hours, the day is `01` and the hour is the input text, padded with `0` when it has one character. |
| Timepoint.TimeFirstDayIso | transform/substance_transform.py:80-85 | For a canonical hour text below 24, the result is the two-digit timestamp of that hour on day 1. |
| Timepoint.TimeLaterDays | transform/substance_transform.py:75-79 | From 24 hours on, the hour is `00` and the day is `"0"` followed by `floor(h/24)+1`. |
| Timepoint.TimeLaterDaysIso | transform/substance_transform.py:75-79 | From day 2 to day 9 that is the two-digit timestamp of midnight of that day. |
| Timepoint.TimeDayOverflow | transform/substance_transform.py:76-79 | From day 10 to day 99 the text is one character longer than an ISO 8601 timestamp. |
| Timepoint.TimeFiveHours | transform/substance_transform.py:80-85 | `"5"` gives `1970-01-01T05:00:00Z`. |
| Timepoint.TimeTwentySixHours | transform/substance_transform.py:77-79 | `"26"` gives `1970-01-02T00:00:00Z`. |
| Vocabulary.Classify | transform/substance_transform.py:64-69 | A table value has a coding exactly when it starts with `EN`, `CH` or `NA`. |
| Vocabulary.Lookup | transform/substance_transform.py:62-71 | Falling off the end of the table is the assertion error for that ligand. |
| Vocabulary.LookupFinds | transform/substance_transform.py:62-71 | The lookup succeeds exactly when some entry matches, and then gives the coding of the first entry that matches. |
| Vocabulary.LookupClassifies | transform/substance_transform.py:62-69 | A successful lookup gives the coding of one of the table's values. |
| Vocabulary.MappingAt | transform/substance_transform.py:62-63 | An entry whose key's first character no earlier key has is the one the lookup returns. |
| Vocabulary.CodeMappingsGenes | transform/substance_transform.py:50-65 | EGF, HGF, IFNG and OSM map to their Ensembl gene ids with the Ensembl URL. |
| Vocabulary.CodeMappingsCompounds | transform/substance_transform.py:50-69 | BMP2, PBS and TGFB map to their ChEMBL ids with the ChEMBL URL; `ctrl` maps to `("NA", "NA")`. |
| Vocabulary.CodeMappingsUnmapped | transform/substance_transform.py:62-71 | A name outside the table fails with the assertion. |
| Vocabulary.CodeMappingsTotal | transform/substance_transform.py:50-71 | The mapping succeeds exactly for the eight names of the table. |
| Vocabulary.ClassifySystem | transform/substance_transform.py:64-69 | The system of a classified value follows its prefix. |
| Vocabulary.CodeMappingsSystem | transform/substance_transform.py:62-69 | For any name that maps, the system is Ensembl iff the code starts with `EN`, ChEMBL iff it starts with `CH`, and `NA` iff the code is `NA`. |
| Substances.RowLigands | transform/substance_transform.py:149-150 | The four ligand fields are read. The row is accepted exactly when all four are present, and then gives their values. |
| Substances.SubstanceFor | transform/substance_transform.py:155-181 | An unmapped ligand fails with the assertion, and a non-integer dose with ValueError. Otherwise the Substance is named `substance_id(key)`, its code coding is the `code_mappings` result, its category puts the chemical URL under `system` for the first slot and under `code` for the second, and its quantity is `int(dose)` with the slot's unit. |
| Substances.Additives | transform/substance_transform.py:104-107 | One reference per specimen key, each `Substance/` plus `substance_id(key)`. |
| Substances.Enrich | transform/substance_transform.py:95-111 | The Specimen is built exactly when the ligand fields and the time point are good. Otherwise the first error raised is returned. |
| Substances.EnrichFields | transform/substance_transform.py:99-111 | The stub keeps all but three fields. `identifier` is the row's specimenID, `processing` is one entry with the additives and timestamp, and `resourceType` is `Specimen`. |
| Substances.SlotStep | transform/substance_transform.py:153-166 | The key is recorded unless it is `none-0` or already seen. At most one Substance is emitted, named after the key, and only for a newly recorded key. |
| Substances.RowStep | transform/substance_transform.py:149-185 | A row without ligand fields fails with nothing emitted. A row that goes through has good ligand fields and a Specimen. |
| Substances.RowStepShape | transform/substance_transform.py:149-185 | A row that goes through records its fresh keys in slot order. It emits one Substance per fresh key, named after that key, then the enriched Specimen. |
| Substances.RowStepParts | transform/substance_transform.py:153-185 | A row that goes through emits the first slot's records, then the second slot's, then the Specimen. |
| Substances.RowStepSeen | transform/substance_transform.py:153-170 | A row that goes through extends the recorded keys with its own keys, keeps the old ones in front, and emits one record more than it records. |
| Substances.RowStepSubstances | transform/substance_transform.py:153-182 | Each record before the Specimen is the Substance of the recorded key at that position. |
| Substances.TwoSlots | transform/substance_transform.py:153-182 | The two slots emit one Substance per newly recorded key, in slot order. |
| Substances.Zip | transform/substance_transform.py:144 | The pairs are positional, as many as the shorter stream has. |
| SubstanceRun.AddKeyShape | transform/substance_transform.py:153-154 | Recording one key keeps the list duplicate-free and free of `none-0`, and adds only that key. |
| SubstanceRun.AddKeysShape | transform/substance_transform.py:153-170 | Recording keys keeps the list duplicate-free and free of `none-0`, keeps the old keys in front, and adds exactly the new keys. |
| SubstanceRun.AddKeysAppend | transform/substance_transform.py:143-170 | Recording `a + b` is recording `a` then `b`. |
| SubstanceRun.RunSeen | transform/substance_transform.py:143-185 | After a run that goes through, `substances` is every key of every row, `none-0` left out, in order of first occurrence. |
| SubstanceRun.RunKeys | transform/substance_transform.py:143-170 | `substances` has no duplicates and no `none-0`, and holds exactly the keys of the run other than `none-0`. |
| SubstanceRun.RowOfType | transform/substance_transform.py:153-185 | A row's records are its Substances, then its one Specimen. |
| SubstanceRun.RunSubstances | transform/substance_transform.py:153-182 | A run emits exactly one Substance per recorded key, in the same order, each named after its key. |
| SubstanceRun.RunSpecimens | transform/substance_transform.py:185 | A run emits one Specimen per row pair, in row order, each the row's enriched stub. |
| SubstanceRun.AllKeysHas | transform/substance_transform.py:149-150 | The keys of each row are among the keys of the run. |
| SubstanceRun.NoneKeyLigand | transform/substance_transform.py:102-107 | Only the ligand `none` can make the key `none-0`. |
| SubstanceRun.RunRefKeys | transform/substance_transform.py:101-107 | Every key a Specimen refers to was recorded, except a first-slot `none-0`. |
| SubstanceRun.RunAdditivesResolve | transform/substance_transform.py:87-107 | Every additive reference names a Substance of the same run, except the first-slot reference of a `none`/`0` row. |
| SubstanceRun.RunStopsAtError | transform/substance_transform.py:144-185 | Once a row raises, nothing after it runs. |
| SubstancePipeline.EmitSpecimen | transform/substance_transform.py:95-115 | A failing Specimen build leaves the emitter untouched and returns the error. Otherwise the state is `AfterEmit` of the enriched Specimen. |
| SubstancePipeline.EmitSlot | transform/substance_transform.py:153-166 | The recorded keys, the error and the emitter state are those of `SlotStep`. |
| SubstancePipeline.ProcessRow | transform/substance_transform.py:149-185 | The recorded keys, the error and the emitter state are those of `RowStep`. |
| SubstancePipeline.RunNext | transform/substance_transform.py:144-185 | The run over one more pair adds that row's step. |
| SubstancePipeline.TransformDirectory | transform/substance_transform.py:138-191 | The error is the run's. The state is every emit of the run; the files are closed only when no error was raised, and stay writable when one was. |
| Mcf10aRecords.Study | mcf10a_etl/transform.py:33-43 | The ResearchStudy is named after `PROJECT_ID` and has `PROJECT_ID` as its one identifier. |
| Mcf10aRecords.CellLineNamesSpec | mcf10a_etl/transform.py:58 | The cell-line set exists iff every summary has `Cell_Line`, and is then exactly those values. Otherwise the error is KeyError on `Cell_Line`. |
| Mcf10aRecords.SubjectFor | mcf10a_etl/transform.py:64-72 | The subject is named after `ResearchSubject/{cell}` and references the Patient of `Patient/{cell}` and the study. |
| Mcf10aRecords.DemographicOfSpec | mcf10a_etl/transform.py:76-79 | An annotation gives its dict item exactly when it has the four fields. Otherwise it fails on the first missing field, in reading order. |
| Mcf10aRecords.StoreSpec | mcf10a_etl/transform.py:76-79 | A dict store keeps keys distinct and in place, adds the key with its new value, and keeps every other item. |
| Mcf10aRecords.DemographicsDefined | mcf10a_etl/transform.py:76-79 | The dict is built exactly when every annotation has the four fields. |
| Mcf10aRecords.DemographicsKeys | mcf10a_etl/transform.py:76-79 | The dict holds each `cellLine` of the annotations exactly once. |
| Mcf10aRecords.DemographicsLastWins | mcf10a_etl/transform.py:76-79 | The last annotation of a cell line gives its demographic. |
| Mcf10aRecords.PatientFor | mcf10a_etl/transform.py:83-94 | The Patient is named after `Patient/{cell}`, its gender is the item's `sex`, and its identifier is the cell-line name. |
| Mcf10aRecords.Patients | mcf10a_etl/transform.py:82-95 | One Patient per dict item, in dict order. |
| Mcf10aRecords.PatientsPerCellLine | mcf10a_etl/transform.py:81-95 | There are as many Patients as distinct cell lines in the annotations, and each cell line has its Patient. |
| Mcf10aRecords.PatientLastWins | mcf10a_etl/transform.py:76-95 | A Patient's gender is the `sex` of the last annotation of its cell line. |
| Mcf10aRecords.SpecimenForSpec | mcf10a_etl/transform.py:112-142 | A Specimen is built iff the four fields are present; otherwise it fails on the first missing one. It is named after `Specimen/{specimenName}`, its subject is the Patient of `cellLine`, its identifiers are specimenID then specimenName, and its body site is SNOMED 76752008 with `cellType` as text. |
| Mcf10aRecords.Assays | mcf10a_etl/transform.py:213 | Every assay is an entry of the annotation whose value starts with `syn`. |
| Mcf10aRecords.AssaysSpec | mcf10a_etl/transform.py:213 | The assays are exactly the entries whose value starts with `syn`. |
| Mcf10aRecords.AssaysAppend | mcf10a_etl/transform.py:213 | The filter keeps the annotation's order: the assays of `a + b` are those of `a` followed by those of `b`. |
| Mcf10aRecords.Matching | mcf10a_etl/transform.py:166-168 | Every file kept has the id looked for. |
| Mcf10aRecords.FindFilesSpec | mcf10a_etl/transform.py:164-168 | The search finds a file exactly when it has the id and sits in some folder of the hierarchy. |
| Mcf10aRecords.FindFilesAppend | mcf10a_etl/transform.py:165-168 | The files of earlier folders come first. |
| Mcf10aRecords.DocumentReference | mcf10a_etl/transform.py:172-201 | The DocumentReference is named after the handle's etag, and its subject is the sample's Patient. |
| Mcf10aRecords.DocumentReferences | mcf10a_etl/transform.py:169-203 | One DocumentReference per found file, in search order. |
| Mcf10aRecords.Outputs | mcf10a_etl/transform.py:217-224 | One output entry per DocumentReference, in the same order. |
| Mcf10aRecords.TaskFor | mcf10a_etl/transform.py:225-244 | The Task is named after `Task/{specimenName}-{assay}` and is for the sample's Patient. Its one input references the Specimen it focuses on, and its outputs are the given DocumentReferences. |
| Mcf10aRecords.AssayWrite | mcf10a_etl/transform.py:214-247 | Each assay writes exactly one Task. |
| Mcf10aRecords.PerAssay | mcf10a_etl/transform.py:214-247 | One write per assay, in assay order. |
| Mcf10aRecords.SampleOf | mcf10a_etl/transform.py:209-212 | An annotation has a sample iff it has `cellLine` and `specimenName`. Otherwise it fails with KeyError on the first one missing. |
| Mcf10aRecords.AssayWritesSpec | mcf10a_etl/transform.py:214-245 | A sample writes one Task per assay, in assay order. |
| Mcf10aRecords.AssayWritesAppend | mcf10a_etl/transform.py:214-247 | The writes of `a + b` are those of `a` followed by those of `b`; there is no deduplication across assays. |
| Mcf10aRecords.AssayWritesOne | mcf10a_etl/transform.py:214-247 | One assay writes its Task and then its DocumentReferences. |
| Mcf10aRecords.TaskOutputsResolve | mcf10a_etl/transform.py:217-224 | Output `i` of a Task references DocumentReference `i` of those written with it. |
| Mcf10aCommands.WriteSubjects | mcf10a_etl/transform.py:63-73 | One ResearchSubject per cell line of the set, each once, in some order. |
| Mcf10aCommands.WritePatients | mcf10a_etl/transform.py:81-95 | The Patients written are `Patients` of the dict. |
| Mcf10aCommands.TransformSubjects | mcf10a_etl/transform.py:55-95 | A summary without `Cell_Line` writes nothing. Otherwise one subject per cell line is written first. Then a bad annotation gives its error and no Patient, and otherwise the Patients of the dict are written. |
| Mcf10aCommands.TransformSpecimens | mcf10a_etl/transform.py:105-143 | A summary without `Cell_Line` writes nothing. Otherwise the Specimens of the annotations are written in order, stopping at the first bad annotation, whose error is returned. |
| Mcf10aCommands.CollectDocumentReferences | mcf10a_etl/transform.py:162-203 | The nested search then the render loop give `DocumentReferences`. |
| Mcf10aCommands.FindFilesStep | mcf10a_etl/transform.py:165-168 | Searching one more folder appends its matches. |
| Mcf10aCommands.WriteSampleTasks | mcf10a_etl/transform.py:214-247 | The assay loop writes `AssayWrites` of the sample. |
| Mcf10aCommands.TransformTasks | mcf10a_etl/transform.py:153-247 | A summary without `Cell_Line` writes nothing. Otherwise the Tasks, DocumentReferences and error are those of `TasksRun` over the annotations. |
| Mcf10aCommands.TasksRunStops | mcf10a_etl/transform.py:208-212 | Once an annotation lacks `cellLine` or `specimenName`, nothing after it is written. |
| Mcf10aLinks.SpecimenSubjectResolves | mcf10a_etl/transform.py:113-119 | Every Specimen's subject is a Patient written by `transform_subjects` from the same annotations. |
| Mcf10aLinks.SubjectPatientResolves | mcf10a_etl/transform.py:65-69 | A subject's Patient is written when its cell line occurs in the annotations. |
| Mcf10aLinks.TaskOfAnnotation | mcf10a_etl/transform.py:208-228 | Every Task written is for the Patient of some annotation, and focuses on that annotation's Specimen. |
| Mcf10aLinks.TaskFocusResolves | mcf10a_etl/transform.py:209-228 | When every annotation has its Specimen, every Task focuses on a written Specimen and is for that Specimen's subject. |
| Mcf10aLinks.SpecimenLinks | mcf10a_etl/transform.py:113-119 | A Specimen is named after its `specimenName` and its subject is the Patient of its `cellLine`. |
| Mcf10aLinks.RepeatedAssayWritesTwice | mcf10a_etl/transform.py:214-247 | Two assay names with the same Synapse id write that id's DocumentReferences twice. |
| Mcf10aLinks.AssayWriteBalanced | mcf10a_etl/transform.py:217-247 | One assay writes as many DocumentReferences as its Task has outputs. |
| Mcf10aLinks.TasksRunBalanced | mcf10a_etl/transform.py:205-247 | Whether or not an error stops it, the DocumentReference file has exactly one record per output entry of the Task file. |

## Left out

- JSON parsing and serialisation (`json.loads`, `orjson`, `.json()`) are not modelled. Records are handed over already parsed; a resource is its type and fields.
- `parse_obj` validation by the FHIR schema library is not modelled. A record the schema would reject is emitted as built.
- The uuid hashing of section 4.3 of RFC 4122 is not modelled. `uuid3`/`uuid5` are arbitrary functions.
- `read_ndjson` and the file reads are not modelled. The summary table, the annotations, the stubs and the hierarchy are input sequences.
- A hierarchy file lacking `id_`, `entity` or a handle field is not modelled. The hierarchy is typed, so those KeyErrors cannot arise.
- Every field value is text. `startswith` on a non-string value, `len()` on a numeric time point, and `str()` of a numeric dose are not modelled.
- `int()` accepts only an optional sign and ASCII digits. Python's surrounding whitespace, `_` separators, non-ASCII Unicode digits and floats are not modelled.
- Timepoint.EncodeTime: the float division `math.floor(int(time3)/24)` is exact floor division by 24. The two are equal for |hours| < 24·2^49. Above that, the rounding of the float quotient, and the OverflowError for hours beyond float range, are not modelled.
- The skip of empty lines at transform/substance_transform.py:145 is not modelled. `readlines()` never yields an empty line, and parsing happens before the model starts.
- The input-path choice, gzip copy, `flag` test and debug `print`s are not modelled (transform/substance_transform.py:112-113, 122-135, 163-164, 179-180).
- The path checks on the command arguments are not modelled (transform/substance_transform.py:125-126, mcf10a_etl/transform.py:31, 53, 103, 151).
- Module-level invocations and the `click` command plumbing are not modelled.
- Emission.Emitter.Emit: it requires that no stream has been closed. Writing to a file closed by `close_all_emitters`, which raises in Python, is not modelled.
- Mcf10aCommands.WriteSubjects: the iteration order of a Python set is not modelled. The order is a ghost out-parameter, and only its contents are stated.
- Records with a repeated key are outside the model's domain. A record parsed from JSON has distinct keys, keeping the last duplicate, while `Get` returns the first entry.
- Mcf10aRecords.Study: the single write of the ResearchStudy file, without a trailing newline, is not modelled. The model states the record only.
- Observation assay-count aggregation is not modelled. Its source is not part of this model.
- `util/extract.py` (Synapse client), `transform/cleaner.py` (file renames) and `mcf10a_etl/cli.py` are not part of this model.
