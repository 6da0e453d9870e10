/** What a whole run of the row loop of transform/substance_transform.py
    produces: the `substances` list, the Substances and the Specimens, and
    how the Specimens' additive references meet the Substances. */
module SubstanceRun {
  import opened Common
  import opened Naming
  import opened Resources
  import opened Emission
  import opened Substances

  /** The slot keys of every row pair, in row order and slot order. */
  function AllKeys(pairs: seq<(Row, Stub)>): seq<string> {
    if pairs == [] then []
    else
      AllKeys(pairs[..|pairs| - 1]) +
      match RowLigands(pairs[|pairs| - 1].0)
      case Success(lig) => RowKeys(lig)
      case Failure(_) => []
  }

  lemma {:induction false} AddKeysAppend(seen: seq<string>, a: seq<string>, b: seq<string>)
    ensures AddKeys(seen, a + b) == AddKeys(AddKeys(seen, a), b)
    decreases |a|
  {
    if a == [] {
      assert a + b == b;
    } else {
      assert (a + b)[0] == a[0] && (a + b)[1..] == a[1..] + b;
      AddKeysAppend(AddKey(seen, a[0]), a[1..], b);
    }
  }

  /** Recording keys keeps what was recorded, in front, adds each new key
      other than `none-0` once, and nothing else. */
  lemma {:induction false} AddKeysShape(seen: seq<string>, keys: seq<string>)
    requires NoDuplicates(seen) && NoSubstance !in seen
    ensures var r := AddKeys(seen, keys);
      && NoDuplicates(r) && NoSubstance !in r
      && |seen| <= |r| && r[..|seen|] == seen
      && forall k :: k in r <==> k in seen || (k in keys && k != NoSubstance)
    decreases |keys|
  {
    if keys != [] {
      var next := AddKey(seen, keys[0]);
      AddKeyShape(seen, keys[0]);
      AddKeysShape(next, keys[1..]);
      var r := AddKeys(seen, keys);
      assert r == AddKeys(next, keys[1..]);
      assert r[..|next|][..|seen|] == r[..|seen|];
      forall k ensures k in keys <==> k == keys[0] || k in keys[1..] {
        assert keys == [keys[0]] + keys[1..];
      }
    }
  }

  /** Recording one key. */
  lemma AddKeyShape(seen: seq<string>, key: string)
    requires NoDuplicates(seen) && NoSubstance !in seen
    ensures var r := AddKey(seen, key);
      && NoDuplicates(r) && NoSubstance !in r
      && |seen| <= |r| && r[..|seen|] == seen
      && forall k :: k in r <==> k in seen || (k == key && k != NoSubstance)
  {
    var r := AddKey(seen, key);
    assert r[..|seen|] == seen;
  }

  /** After a run that went through, `substances` is the keys of all rows,
      `none-0` left out, each once, in order of first occurrence. */
  lemma {:induction false} RunSeen(h: NameHash, pairs: seq<(Row, Stub)>)
    requires Run(h, pairs).error.None?
    ensures Run(h, pairs).seen == AddKeys([], AllKeys(pairs))
    decreases |pairs|
  {
    if pairs != [] {
      var init, last := pairs[..|pairs| - 1], pairs[|pairs| - 1];
      var prev := Run(h, init);
      RunSeen(h, init);
      RowStepShape(h, last.0, last.1, prev.seen);
      AddKeysAppend([], AllKeys(init), RowKeys(RowLigands(last.0).value));
    }
  }

  lemma RunKeys(h: NameHash, pairs: seq<(Row, Stub)>)
    requires Run(h, pairs).error.None?
    ensures var seen := Run(h, pairs).seen;
      && NoDuplicates(seen) && NoSubstance !in seen
      && forall k :: k in seen <==> k in AllKeys(pairs) && k != NoSubstance
  {
    RunSeen(h, pairs);
    AddKeysShape([], AllKeys(pairs));
  }

  lemma SpecimenNotSubstance()
    ensures "Specimen" != "Substance"
  {
    assert "Specimen"[1] == 'p' && "Substance"[1] == 'u';
  }

  /** The records of one row that went through: its Substances, then its
      Specimen. */
  lemma RowOfType(h: NameHash, row: Row, stub: Stub, seen: seq<string>)
    requires RowStep(h, row, stub, seen).error.None?
    ensures var s := RowStep(h, row, stub, seen);
      && OfType(s.emitted, "Substance") == s.emitted[..|s.emitted| - 1]
      && OfType(s.emitted, "Specimen") == [Enrich(h, stub, row).value]
  {
    RowStepShape(h, row, stub, seen);
    var s := RowStep(h, row, stub, seen);
    var init := s.emitted[..|s.emitted| - 1];
    assert s.emitted == init + [s.emitted[|s.emitted| - 1]];
    SpecimenNotSubstance();
    OfTypeAll(init, "Substance");
    OfTypeNone(init, "Specimen");
  }

  /** After a run that went through, the Substances emitted are one per
      recorded key, in the same order, each named after its key. */
  lemma {:induction false} RunSubstances(h: NameHash, pairs: seq<(Row, Stub)>)
    requires Run(h, pairs).error.None?
    ensures var r := Run(h, pairs);
      && |OfType(r.emitted, "Substance")| == |r.seen|
      && forall i :: 0 <= i < |r.seen| ==>
           OfType(r.emitted, "Substance")[i].resourceType == "Substance" &&
           IdOf(OfType(r.emitted, "Substance")[i]) == Some(SubstanceId(h, r.seen[i]))
    decreases |pairs|
  {
    if pairs != [] {
      var init, last := pairs[..|pairs| - 1], pairs[|pairs| - 1];
      var prev := Run(h, init);
      RunSubstances(h, init);
      var s := RowStep(h, last.0, last.1, prev.seen);
      RowStepShape(h, last.0, last.1, prev.seen);
      RowOfType(h, last.0, last.1, prev.seen);
      var r := Run(h, pairs);
      assert r.emitted == prev.emitted + s.emitted && r.seen == s.seen;
      OfTypeAppend(prev.emitted, s.emitted, "Substance");
      var before := OfType(prev.emitted, "Substance");
      var subs := OfType(r.emitted, "Substance");
      assert subs == before + s.emitted[..|s.emitted| - 1];
      forall i | 0 <= i < |r.seen|
        ensures subs[i].resourceType == "Substance" && IdOf(subs[i]) == Some(SubstanceId(h, r.seen[i]))
      {
        if i < |prev.seen| {
          assert subs[i] == before[i];
          assert r.seen[i] == r.seen[..|prev.seen|][i];
        } else {
          assert subs[i] == s.emitted[i - |prev.seen|];
        }
      }
    }
  }

  /** After a run that went through, the Specimens emitted are one per row
      pair, in row order, each the row's enriched stub. */
  lemma {:induction false} RunSpecimens(h: NameHash, pairs: seq<(Row, Stub)>)
    requires Run(h, pairs).error.None?
    ensures var specimens := OfType(Run(h, pairs).emitted, "Specimen");
      && |specimens| == |pairs|
      && forall i :: 0 <= i < |pairs| ==>
           Enrich(h, pairs[i].1, pairs[i].0).Success? &&
           specimens[i] == Enrich(h, pairs[i].1, pairs[i].0).value
    decreases |pairs|
  {
    if pairs != [] {
      var init, last := pairs[..|pairs| - 1], pairs[|pairs| - 1];
      var prev := Run(h, init);
      RunSpecimens(h, init);
      var s := RowStep(h, last.0, last.1, prev.seen);
      RowOfType(h, last.0, last.1, prev.seen);
      var r := Run(h, pairs);
      assert r.emitted == prev.emitted + s.emitted;
      OfTypeAppend(prev.emitted, s.emitted, "Specimen");
      var before := OfType(prev.emitted, "Specimen");
      var specimens := OfType(r.emitted, "Specimen");
      assert specimens == before + [Enrich(h, last.1, last.0).value];
      forall i | 0 <= i < |pairs|
        ensures Enrich(h, pairs[i].1, pairs[i].0).Success? &&
          specimens[i] == Enrich(h, pairs[i].1, pairs[i].0).value
      {
        if i < |init| {
          assert pairs[i] == init[i];
          assert Enrich(h, init[i].1, init[i].0).Success? && before[i] == Enrich(h, init[i].1, init[i].0).value;
          assert specimens[i] == before[i];
        } else {
          assert i == |pairs| - 1;
        }
      }
    }
  }

  /** The keys of row `i` are among the keys of the run. */
  lemma {:induction false} AllKeysHas(pairs: seq<(Row, Stub)>, i: nat)
    requires i < |pairs| && RowLigands(pairs[i].0).Success?
    ensures forall k :: k in RowKeys(RowLigands(pairs[i].0).value) ==> k in AllKeys(pairs)
    decreases |pairs|
  {
    var init := pairs[..|pairs| - 1];
    if i < |init| {
      assert pairs[i] == init[i];
      AllKeysHas(init, i);
    }
  }

  /** Only the ligand `none` makes the key `none-0`: the `-` the key is
      joined with must sit where that text has its only `-`. Hence a
      second-slot reference, written only when the ligand is not `none`,
      never names `none-0`. */
  lemma NoneKeyLigand(ligand: string, dose: string)
    requires SlotKey(ligand, dose) == NoSubstance
    ensures ligand == "none"
  {
    var key := SlotKey(ligand, dose);
    assert key[|ligand|] == '-';
    assert |ligand| == 4;
    assert ligand == key[..4];
    assert key[..4] == "none";
  }

  /** After a run that went through, every key a Specimen refers to was
      recorded, hence has its Substance, except a first-slot `none-0`,
      whose reference is written although no Substance was made. */
  lemma RunRefKeys(h: NameHash, pairs: seq<(Row, Stub)>, i: nat)
    requires Run(h, pairs).error.None? && i < |pairs|
    ensures RowLigands(pairs[i].0).Success?
    ensures var lig := RowLigands(pairs[i].0).value;
      forall j :: 0 <= j < |RefKeys(lig)| ==>
        RefKeys(lig)[j] in Run(h, pairs).seen || (j == 0 && lig.FirstKey() == NoSubstance)
  {
    RunSpecimens(h, pairs);
    assert Enrich(h, pairs[i].1, pairs[i].0).Success?;
    var lig := RowLigands(pairs[i].0).value;
    AllKeysHas(pairs, i);
    RunKeys(h, pairs);
    if lig.SecondKey() == NoSubstance {
      NoneKeyLigand(lig.secondLigand, lig.secondDose);
    }
  }

  /** The additive references of every Specimen of a run that went through
      resolve to a Substance of the same run, except the first-slot
      reference of a `none`/`0` row, which dangles. */
  lemma RunAdditivesResolve(h: NameHash, pairs: seq<(Row, Stub)>, i: nat, j: nat)
    requires Run(h, pairs).error.None? && i < |pairs|
    ensures RowLigands(pairs[i].0).Success?
    ensures var lig := RowLigands(pairs[i].0).value;
      var subs := OfType(Run(h, pairs).emitted, "Substance");
      j < |Additives(h, lig)| && !(j == 0 && lig.FirstKey() == NoSubstance) ==>
        exists m :: 0 <= m < |subs| && IdOf(subs[m]).Some? &&
          Additives(h, lig)[j] == Reference(subs[m].resourceType, IdOf(subs[m]).value)
  {
    RunRefKeys(h, pairs, i);
    RunSubstances(h, pairs);
    var lig := RowLigands(pairs[i].0).value;
    var r := Run(h, pairs);
    var subs := OfType(r.emitted, "Substance");
    if j < |Additives(h, lig)| && !(j == 0 && lig.FirstKey() == NoSubstance) {
      var k := RefKeys(lig)[j];
      assert k in r.seen;
      var m :| 0 <= m < |r.seen| && r.seen[m] == k;
      assert IdOf(subs[m]) == Some(SubstanceId(h, k));
    }
  }

  /** Once a prefix of the pairs has failed, the run is that prefix's. */
  lemma {:induction false} RunStopsAtError(h: NameHash, pairs: seq<(Row, Stub)>, n: nat)
    requires n <= |pairs| && Run(h, pairs[..n]).error.Some?
    ensures Run(h, pairs) == Run(h, pairs[..n])
    decreases |pairs| - n
  {
    if n < |pairs| {
      assert pairs[..n + 1][..n] == pairs[..n];
      RunStopsAtError(h, pairs, n + 1);
    } else {
      assert pairs[..n] == pairs;
    }
  }
}
