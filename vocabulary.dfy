/** `code_mappings` (transform/substance_transform.py): ligand names to the
    code and code system of their coding. */
module Vocabulary {
  import opened Common

  datatype Coding = Coding(code: string, system: string)

  const EnsemblGene: string := "https://useast.ensembl.org/Homo_sapiens/Gene/"
  const ChemblSearch: string := "https://www.ebi.ac.uk/chembl/g/#search_results/all/"

  /** The table, in the order the lookup walks it. */
  const Mappings: seq<(string, string)> := [
    ("BMP2", "CHEMBL1926496"),
    ("EGF", "ENSG00000138798"),
    ("HGF", "ENSG00000019991"),
    ("IFNG", "ENSG00000111537"),
    ("OSM", "ENSG00000099985"),
    ("PBS", "CHEMBL259100"),
    ("TGFB", "CHEMBL1795178"),
    ("ctrl", "NA")
  ]

  /** `value[:2] == a + b` */
  predicate PrefixIs(value: string, a: char, b: char) {
    |value| >= 2 && value[0] == a && value[1] == b
  }

  /** The coding a table value stands for, chosen by its first two
      characters; a value with none of the three prefixes has none. */
  function Classify(value: string): (c: Option<Coding>)
    ensures c.Some? <==> PrefixIs(value, 'E', 'N') || PrefixIs(value, 'C', 'H') || PrefixIs(value, 'N', 'A')
  {
    if PrefixIs(value, 'E', 'N') then Some(Coding(value, EnsemblGene))
    else if PrefixIs(value, 'C', 'H') then Some(Coding(value, ChemblSearch))
    else if PrefixIs(value, 'N', 'A') then Some(Coding("NA", "NA"))
    else None
  }

  /** An entry the lookup stops at. */
  predicate Matches(entry: (string, string), ligand: string) {
    entry.0 == ligand && Classify(entry.1).Some?
  }

  /** The lookup loop: the first entry whose key is the ligand and whose
      value has a known prefix; falling off the end is the assertion error. */
  function Lookup(table: seq<(string, string)>, ligand: string): (r: Result<Coding>)
    ensures r.Failure? ==> r.error == UnmappedLigand(ligand)
  {
    if table == [] then Failure(UnmappedLigand(ligand))
    else if Matches(table[0], ligand) then Success(Classify(table[0].1).value)
    else Lookup(table[1..], ligand)
  }

  function CodeMappings(ligand: string): Result<Coding> {
    Lookup(Mappings, ligand)
  }

  /** The lookup succeeds exactly when some entry matches, and then gives
      the coding of the first entry that does. */
  lemma {:induction false} LookupFinds(table: seq<(string, string)>, ligand: string)
    ensures Lookup(table, ligand).Success? <==> exists i :: 0 <= i < |table| && Matches(table[i], ligand)
    ensures forall i ::
      (0 <= i < |table| && Matches(table[i], ligand) && forall j :: 0 <= j < i ==> !Matches(table[j], ligand)) ==>
      Lookup(table, ligand) == Success(Classify(table[i].1).value)
  {
    if table != [] {
      var rest := table[1..];
      LookupFinds(rest, ligand);
      if !Matches(table[0], ligand) {
        if exists i :: 0 <= i < |table| && Matches(table[i], ligand) {
          var i :| 0 <= i < |table| && Matches(table[i], ligand);
          assert Matches(rest[i - 1], ligand);
        }
        if Lookup(table, ligand).Success? {
          var i :| 0 <= i < |rest| && Matches(rest[i], ligand);
          assert Matches(table[i + 1], ligand);
        }
        forall i | 0 < i < |table| && Matches(table[i], ligand) &&
          (forall j :: 0 <= j < i ==> !Matches(table[j], ligand))
          ensures Lookup(table, ligand) == Success(Classify(table[i].1).value)
        {
          assert Matches(rest[i - 1], ligand);
          forall j | 0 <= j < i - 1 ensures !Matches(rest[j], ligand) {
            assert rest[j] == table[j + 1];
          }
        }
      }
    }
  }

  /** A successful lookup gives the coding of one of the table's values. */
  lemma {:induction false} LookupClassifies(table: seq<(string, string)>, ligand: string)
    requires Lookup(table, ligand).Success?
    ensures exists i :: 0 <= i < |table| && Classify(table[i].1) == Some(Lookup(table, ligand).value)
  {
    if Matches(table[0], ligand) {
      assert Classify(table[0].1) == Some(Lookup(table, ligand).value);
    } else {
      LookupClassifies(table[1..], ligand);
      var i :| 0 <= i < |table[1..]| && Classify(table[1..][i].1) == Some(Lookup(table, ligand).value);
      assert table[1..][i] == table[i + 1];
    }
  }

  const Ligands: set<string> := {"BMP2", "EGF", "HGF", "IFNG", "OSM", "PBS", "TGFB", "ctrl"}

  /** The entry at `i` is the first one with key `ligand`: the keys of the
      table differ in their first character. */
  lemma MappingAt(i: nat, ligand: string)
    requires i < |Mappings| && Mappings[i].0 == ligand && Classify(Mappings[i].1).Some?
    requires forall j :: 0 <= j < i ==> Mappings[j].0[0] != ligand[0]
    ensures CodeMappings(ligand) == Success(Classify(Mappings[i].1).value)
  {
    LookupFinds(Mappings, ligand);
  }

  /** The growth factors and cytokines map to their Ensembl gene ids. */
  lemma CodeMappingsGenes()
    ensures CodeMappings("EGF") == Success(Coding("ENSG00000138798", EnsemblGene))
    ensures CodeMappings("HGF") == Success(Coding("ENSG00000019991", EnsemblGene))
    ensures CodeMappings("IFNG") == Success(Coding("ENSG00000111537", EnsemblGene))
    ensures CodeMappings("OSM") == Success(Coding("ENSG00000099985", EnsemblGene))
  {
    MappingAt(1, "EGF");
    MappingAt(2, "HGF");
    MappingAt(3, "IFNG");
    MappingAt(4, "OSM");
  }

  /** The compounds map to their ChEMBL ids, `ctrl` to `NA`. */
  lemma CodeMappingsCompounds()
    ensures CodeMappings("BMP2") == Success(Coding("CHEMBL1926496", ChemblSearch))
    ensures CodeMappings("PBS") == Success(Coding("CHEMBL259100", ChemblSearch))
    ensures CodeMappings("TGFB") == Success(Coding("CHEMBL1795178", ChemblSearch))
    ensures CodeMappings("ctrl") == Success(Coding("NA", "NA"))
  {
    MappingAt(0, "BMP2");
    MappingAt(5, "PBS");
    MappingAt(6, "TGFB");
    MappingAt(7, "ctrl");
  }

  /** A name outside the table fails with the assertion. */
  lemma CodeMappingsUnmapped(ligand: string)
    requires ligand !in Ligands
    ensures CodeMappings(ligand) == Failure(UnmappedLigand(ligand))
  {
    LookupFinds(Mappings, ligand);
    forall i | 0 <= i < |Mappings| ensures !Matches(Mappings[i], ligand) {
      assert Mappings[i].0 in Ligands;
    }
  }

  /** The eight names of the table are mapped, every other name fails. */
  lemma CodeMappingsTotal(ligand: string)
    ensures CodeMappings(ligand).Success? <==> ligand in Ligands
    ensures ligand !in Ligands ==> CodeMappings(ligand) == Failure(UnmappedLigand(ligand))
  {
    if ligand in Ligands {
      assert ligand in {"EGF", "HGF", "IFNG", "OSM"} || ligand in {"BMP2", "PBS", "TGFB", "ctrl"};
      if ligand in {"EGF", "HGF", "IFNG", "OSM"} {
        CodeMappingsGenes();
      } else {
        CodeMappingsCompounds();
      }
    } else {
      CodeMappingsUnmapped(ligand);
    }
  }

  lemma SystemsDiffer()
    ensures EnsemblGene != ChemblSearch && EnsemblGene != "NA" && ChemblSearch != "NA"
  {
    assert EnsemblGene[8] == 'u' && ChemblSearch[8] == 'w';
  }

  /** The code system of a classified value follows its prefix. */
  lemma ClassifySystem(value: string)
    requires Classify(value).Some?
    ensures var c := Classify(value).value;
      && (c.system == EnsemblGene <==> PrefixIs(c.code, 'E', 'N'))
      && (c.system == ChemblSearch <==> PrefixIs(c.code, 'C', 'H'))
      && (c.system == "NA" <==> c.code == "NA")
  {
    SystemsDiffer();
  }

  /** The code system follows the code's prefix, whatever the name. */
  lemma CodeMappingsSystem(ligand: string)
    requires CodeMappings(ligand).Success?
    ensures var c := CodeMappings(ligand).value;
      && (c.system == EnsemblGene <==> PrefixIs(c.code, 'E', 'N'))
      && (c.system == ChemblSearch <==> PrefixIs(c.code, 'C', 'H'))
      && (c.system == "NA" <==> c.code == "NA")
  {
    LookupClassifies(Mappings, ligand);
    var i :| 0 <= i < |Mappings| && Classify(Mappings[i].1) == Some(CodeMappings(ligand).value);
    ClassifySystem(Mappings[i].1);
  }
}
