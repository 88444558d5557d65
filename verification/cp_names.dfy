/** The CP side's naming pass (ExternalCP): before the model is exported
    every variable, interval, sequence, state function and constraint gets a
    name that is unique among the objects of its kind; the original names are
    recorded so that they can be written back after the solve. */
module CpNames {
  import opened Wrappers
  import opened Strs
  import opened ModelObjects

  /** The object names together with the table of renamed objects and their
      original (possibly null) names. */
  datatype Naming = Naming(names: Names, renamed: map<ObjId, Option<string>>)

  /** The k-th name tried for `base`: the base itself, then base_1, base_2, … */
  function Candidate(base: string, k: nat): string {
    if k == 0 then base else base + "_" + NatToString(k)
  }

  lemma CandidateInjective(base: string, a: nat, b: nat)
    requires Candidate(base, a) == Candidate(base, b)
    ensures a == b
  {
    if a != 0 && b != 0 {
      SuffixedInjective(base, "_", a, b);
    }
  }

  function CandidatesBelow(base: string, k: nat): set<string> {
    set j | 0 <= j < k :: Candidate(base, j)
  }

  /** The first free candidate at or after `k`; the search ends because every
      step removes one more name of the finite set `existing` from the names
      still to be tried. */
  function FirstFree(base: string, existing: set<string>, k: nat): (m: nat)
    requires forall j :: 0 <= j < k ==> Candidate(base, j) in existing
    ensures k <= m
    ensures Candidate(base, m) !in existing
    ensures forall j :: 0 <= j < m ==> Candidate(base, j) in existing
    decreases existing - CandidatesBelow(base, k)
  {
    if Candidate(base, k) !in existing then k
    else
      assert Candidate(base, k) !in CandidatesBelow(base, k) by {
        forall j | 0 <= j < k ensures Candidate(base, j) != Candidate(base, k) {
          if Candidate(base, j) == Candidate(base, k) {
            CandidateInjective(base, j, k);
          }
        }
      }
      assert CandidatesBelow(base, k + 1) == CandidatesBelow(base, k) + {Candidate(base, k)};
      FirstFree(base, existing, k + 1)
  }

  /** The name the search starts from: the object's own name, or the prefix
      when it has none. */
  function BaseName(st: Naming, o: ObjId, prefix: string): string {
    NameOf(st.names, o).GetOr(prefix)
  }

  /** `SetUniqueName`: keeps a free name, otherwise takes the base or the least
      base_k that is free, and records the original name whenever the name
      changes.  Recording an object twice throws, as `Dictionary.Add` does. */
  function SetUniqueName(st: Naming, o: ObjId, prefix: string, existing: set<string>): (r: Result<(Naming, string)>)
    ensures r.Ok? ==> r.value.1 !in existing
    ensures r.Ok? ==> exists k: nat :: r.value.1 == Candidate(BaseName(st, o, prefix), k)
                         && forall j :: 0 <= j < k ==> Candidate(BaseName(st, o, prefix), j) in existing
    ensures NameOf(st.names, o).Some? && NameOf(st.names, o).value !in existing ==>
              r == Ok((st, NameOf(st.names, o).value))
    ensures r.Ok? && Some(r.value.1) == NameOf(st.names, o) ==> r.value.0 == st
    ensures r.Ok? && Some(r.value.1) != NameOf(st.names, o) ==>
              r.value.0.names == st.names[o := Some(r.value.1)] &&
              r.value.0.renamed == st.renamed[o := NameOf(st.names, o)]
    ensures r.Err? <==> o in st.renamed && Some(Candidate(BaseName(st, o, prefix), FirstFree(BaseName(st, o, prefix), existing, 0))) != NameOf(st.names, o)
    ensures r.Ok? ==> NameOf(r.value.0.names, o) == Some(r.value.1)
    ensures r.Ok? ==> forall p :: p != o ==> NameOf(r.value.0.names, p) == NameOf(st.names, p)
  {
    var origin := NameOf(st.names, o);
    var base := BaseName(st, o, prefix);
    var m := FirstFree(base, existing, 0);
    var newName := Candidate(base, m);
    if Some(newName) != origin then
      if o in st.renamed then Err(DuplicateKey)
      else Ok((Naming(st.names[o := Some(newName)], st.renamed[o := origin]), newName))
    else
      Ok((st, newName))
  }

  /** The naming state agrees with the original names `orig`: a recorded
      object's table entry is its original name, an unrecorded object still
      carries its original name. */
  ghost predicate Tracks(orig: Names, st: Naming) {
    (forall o :: o in st.renamed ==> st.renamed[o] == NameOf(orig, o)) &&
    (forall o :: o !in st.renamed ==> NameOf(st.names, o) == NameOf(orig, o))
  }

  lemma SetUniqueNameTracks(orig: Names, st: Naming, o: ObjId, prefix: string, existing: set<string>)
    requires Tracks(orig, st)
    requires SetUniqueName(st, o, prefix, existing).Ok?
    ensures Tracks(orig, SetUniqueName(st, o, prefix, existing).value.0)
  {
  }

  /** The i-th object of a kind carries, and is filed under, the least
      candidate of its base that no earlier object of the kind holds; the
      base is its name before the pass (`orig`), or `prefix` followed by
      i + offset when it had none. */
  ghost predicate NamedAt(orig: Names, now: Names, dict: map<string, ObjId>, objs: seq<ObjId>,
                          prefix: string, offset: nat, i: nat)
    requires i < |objs|
  {
    var base := NameOf(orig, objs[i]).GetOr(prefix + NatToString(i + offset));
    exists k: nat :: NameOf(now, objs[i]) == Some(Candidate(base, k)) &&
      Candidate(base, k) in dict && dict[Candidate(base, k)] == objs[i] &&
      forall j :: 0 <= j < k ==> Candidate(base, j) in dict && dict[Candidate(base, j)] in objs[..i]
  }

  ghost predicate NamedAsSource(orig: Names, now: Names, dict: map<string, ObjId>, objs: seq<ObjId>,
                                prefix: string, offset: nat)
  {
    forall i :: 0 <= i < |objs| ==> NamedAt(orig, now, dict, objs, prefix, offset, i)
  }

  /** Names every object of one kind in list order; the i-th object falls back
      to `prefix` followed by i + offset.  Also returns the dictionary from the
      assigned names to the objects. */
  function NameAll(st: Naming, objs: seq<ObjId>, prefix: string, offset: nat): (r: Result<(Naming, map<string, ObjId>)>)
    ensures r.Ok? ==> |r.value.1| == |objs|
    ensures r.Ok? ==> r.value.1.Values == set i | 0 <= i < |objs| :: objs[i]
    decreases |objs|
  {
    if |objs| == 0 then Ok((st, map[]))
    else
      var i := |objs| - 1;
      var prev :- NameAll(st, objs[..i], prefix, offset);
      var next :- SetUniqueName(prev.0, objs[i], prefix + NatToString(i + offset), prev.1.Keys);
      var dict := prev.1[next.1 := objs[i]];
      assert (set j | 0 <= j < |objs| :: objs[j]) == (set j | 0 <= j < i :: objs[..i][j]) + {objs[i]};
      assert dict.Values == prev.1.Values + {objs[i]} by {
        forall v | v in dict.Values ensures v in prev.1.Values + {objs[i]} {
          var n :| n in dict && dict[n] == v;
          if n != next.1 {
            assert prev.1[n] == v;
          }
        }
        forall v | v in prev.1.Values + {objs[i]} ensures v in dict.Values {
          if v == objs[i] {
            assert dict[next.1] == v;
          } else {
            var n :| n in prev.1 && prev.1[n] == v;
            assert n != next.1 && dict[n] == v;
          }
        }
      }
      Ok((next.0, dict))
  }

  /** `NameAll` on a non-empty list: the earlier objects, then the last one. */
  lemma NameAllLast(st: Naming, objs: seq<ObjId>, prefix: string, offset: nat)
    requires |objs| > 0 && NameAll(st, objs, prefix, offset).Ok?
    ensures var i := |objs| - 1;
            var prev := NameAll(st, objs[..i], prefix, offset);
            prev.Ok? &&
            var next := SetUniqueName(prev.value.0, objs[i], prefix + NatToString(i + offset), prev.value.1.Keys);
            next.Ok? && NameAll(st, objs, prefix, offset).value == (next.value.0, prev.value.1[next.value.1 := objs[i]])
  {
  }

  /** `NameAll` renames only the objects it is given. */
  lemma {:induction false} NameAllFrame(st: Naming, objs: seq<ObjId>, prefix: string, offset: nat)
    requires NameAll(st, objs, prefix, offset).Ok?
    ensures forall o :: o !in objs ==> NameOf(NameAll(st, objs, prefix, offset).value.0.names, o) == NameOf(st.names, o)
    decreases |objs|
  {
    if |objs| > 0 {
      var i := |objs| - 1;
      NameAllFrame(st, objs[..i], prefix, offset);
      NameAllLast(st, objs, prefix, offset);
      forall o | o !in objs ensures NameOf(NameAll(st, objs, prefix, offset).value.0.names, o) == NameOf(st.names, o) {
        assert o != objs[i] && o !in objs[..i];
      }
    }
  }

  /** With distinct objects `NameAll` gives each the name the source's loop
      gives it: the least candidate of its base (its own name, else `prefix`
      followed by i + offset) that no earlier object of the kind holds. */
  lemma {:induction false} NameAllNames(st: Naming, objs: seq<ObjId>, prefix: string, offset: nat)
    requires NameAll(st, objs, prefix, offset).Ok?
    requires Distinct(objs)
    ensures NamedAsSource(st.names, NameAll(st, objs, prefix, offset).value.0.names,
                          NameAll(st, objs, prefix, offset).value.1, objs, prefix, offset)
    decreases |objs|
  {
    if |objs| > 0 {
      var i := |objs| - 1;
      var o := objs[i];
      assert Distinct(objs[..i]);
      NameAllNames(st, objs[..i], prefix, offset);
      NameAllFrame(st, objs[..i], prefix, offset);
      NameAllLast(st, objs, prefix, offset);
      var prev := NameAll(st, objs[..i], prefix, offset).value;
      var next := SetUniqueName(prev.0, o, prefix + NatToString(i + offset), prev.1.Keys).value;
      var dict := prev.1[next.1 := o];
      NameAllStepNamed(st, objs, prefix, offset, prev, next);
      assert NameAll(st, objs, prefix, offset).value == (next.0, dict);
      assert NamedAsSource(st.names, next.0.names, dict, objs, prefix, offset);
    }
  }

  /** The step of `NameAllNames`: the facts it needs about the earlier
      objects, gathered. */
  lemma NameAllStepNamed(st: Naming, objs: seq<ObjId>, prefix: string, offset: nat,
                         prev: (Naming, map<string, ObjId>), next: (Naming, string))
    requires |objs| > 0 && Distinct(objs)
    requires NamedAsSource(st.names, prev.0.names, prev.1, objs[..|objs| - 1], prefix, offset)
    requires forall v :: v in prev.1.Values ==> v in objs[..|objs| - 1]
    requires forall p :: p !in objs[..|objs| - 1] ==> NameOf(prev.0.names, p) == NameOf(st.names, p)
    requires SetUniqueName(prev.0, objs[|objs| - 1], prefix + NatToString(|objs| - 1 + offset), prev.1.Keys) == Ok(next)
    ensures NamedAsSource(st.names, next.0.names, prev.1[next.1 := objs[|objs| - 1]], objs, prefix, offset)
  {
    var i := |objs| - 1;
    var o := objs[i];
    assert o !in objs[..i] by {
      forall j | 0 <= j < i ensures objs[..i][j] != o {
        assert objs[..i][j] == objs[j];
      }
    }
    forall n | n in prev.1 ensures prev.1[n] in objs[..i] {
      assert prev.1[n] in prev.1.Values;
    }
    var base := BaseName(prev.0, o, prefix + NatToString(i + offset));
    assert base == NameOf(st.names, o).GetOr(prefix + NatToString(i + offset));
    var k: nat :| next.1 == Candidate(base, k) &&
      forall j :: 0 <= j < k ==> Candidate(base, j) in prev.1.Keys;
    NameAllStepNamedAt(st.names, prev.0.names, next.0.names, prev.1, next.1, prev.1[next.1 := o], objs, prefix, offset, k);
  }

  /** The step of `NameAllNames` once the facts are gathered. */
  lemma NameAllStepNamedAt(orig: Names, before: Names, after: Names, prevDict: map<string, ObjId>, newName: string,
                         dict: map<string, ObjId>, objs: seq<ObjId>, prefix: string, offset: nat, k: nat)
    requires |objs| > 0 && Distinct(objs)
    requires dict == prevDict[newName := objs[|objs| - 1]]
    requires NamedAsSource(orig, before, prevDict, objs[..|objs| - 1], prefix, offset)
    requires forall n :: n in prevDict ==> prevDict[n] in objs[..|objs| - 1]
    requires forall p :: p != objs[|objs| - 1] ==> NameOf(after, p) == NameOf(before, p)
    requires NameOf(after, objs[|objs| - 1]) == Some(newName)
    requires newName !in prevDict
    requires var base := NameOf(orig, objs[|objs| - 1]).GetOr(prefix + NatToString(|objs| - 1 + offset));
             newName == Candidate(base, k) && forall j :: 0 <= j < k ==> Candidate(base, j) in prevDict
    ensures NamedAsSource(orig, after, dict, objs, prefix, offset)
  {
    var i := |objs| - 1;
    NameAllKeepsEarlier(orig, before, after, prevDict, newName, dict, objs, prefix, offset);
    NameAllFilesLast(orig, after, prevDict, newName, objs, prefix, offset, k);
    forall i' | 0 <= i' < |objs| ensures NamedAt(orig, after, dict, objs, prefix, offset, i') {
      if i' == i {
      }
    }
  }

  /** Naming the last object leaves every earlier one as it was. */
  lemma NameAllKeepsEarlier(orig: Names, before: Names, after: Names, prevDict: map<string, ObjId>, newName: string,
                            dict: map<string, ObjId>, objs: seq<ObjId>, prefix: string, offset: nat)
    requires |objs| > 0 && Distinct(objs)
    requires dict == prevDict[newName := objs[|objs| - 1]]
    requires NamedAsSource(orig, before, prevDict, objs[..|objs| - 1], prefix, offset)
    requires forall p :: p != objs[|objs| - 1] ==> NameOf(after, p) == NameOf(before, p)
    requires newName !in prevDict
    ensures forall i' :: 0 <= i' < |objs| - 1 ==> NamedAt(orig, after, dict, objs, prefix, offset, i')
  {
    var i := |objs| - 1;
    forall i' | 0 <= i' < i ensures NamedAt(orig, after, dict, objs, prefix, offset, i') {
      assert NamedAt(orig, before, prevDict, objs[..i], prefix, offset, i');
      assert objs[..i][i'] == objs[i'] && objs[..i][..i'] == objs[..i'];
      var b := NameOf(orig, objs[i']).GetOr(prefix + NatToString(i' + offset));
      var k: nat :| NameOf(before, objs[i']) == Some(Candidate(b, k)) &&
        Candidate(b, k) in prevDict && prevDict[Candidate(b, k)] == objs[i'] &&
        forall j :: 0 <= j < k ==> Candidate(b, j) in prevDict && prevDict[Candidate(b, j)] in objs[..i'];
      assert objs[i'] != objs[i];
      assert NameOf(after, objs[i']) == Some(Candidate(b, k));
    }
  }

  /** The last object is filed under its least free candidate. */
  lemma NameAllFilesLast(orig: Names, after: Names, prevDict: map<string, ObjId>, newName: string,
                         objs: seq<ObjId>, prefix: string, offset: nat, k: nat)
    requires |objs| > 0
    requires forall n :: n in prevDict ==> prevDict[n] in objs[..|objs| - 1]
    requires newName !in prevDict
    requires var base := NameOf(orig, objs[|objs| - 1]).GetOr(prefix + NatToString(|objs| - 1 + offset));
             newName == Candidate(base, k) && forall j :: 0 <= j < k ==> Candidate(base, j) in prevDict
    requires NameOf(after, objs[|objs| - 1]) == Some(newName)
    ensures NamedAt(orig, after, prevDict[newName := objs[|objs| - 1]], objs, prefix, offset, |objs| - 1)
  {
    var i := |objs| - 1;
    var base := NameOf(orig, objs[i]).GetOr(prefix + NatToString(i + offset));
    var dict := prevDict[newName := objs[i]];
    forall j | 0 <= j < k ensures Candidate(base, j) in dict && dict[Candidate(base, j)] in objs[..i] {
      assert Candidate(base, j) in prevDict;
    }
  }

  lemma {:induction false} NameAllTracks(orig: Names, st: Naming, objs: seq<ObjId>, prefix: string, offset: nat)
    requires Tracks(orig, st)
    requires NameAll(st, objs, prefix, offset).Ok?
    ensures Tracks(orig, NameAll(st, objs, prefix, offset).value.0)
    decreases |objs|
  {
    if |objs| > 0 {
      var i := |objs| - 1;
      NameAllTracks(orig, st, objs[..i], prefix, offset);
      var prev := NameAll(st, objs[..i], prefix, offset).value;
      SetUniqueNameTracks(orig, prev.0, objs[i], prefix + NatToString(i + offset), prev.1.Keys);
    }
  }

  /** With distinct objects, each dictionary entry names an object by the name
      it now carries. */
  lemma {:induction false} NameAllCurrent(st: Naming, objs: seq<ObjId>, prefix: string, offset: nat)
    requires Distinct(objs)
    requires NameAll(st, objs, prefix, offset).Ok?
    ensures var (st', dict) := NameAll(st, objs, prefix, offset).value;
            forall n :: n in dict ==> NameOf(st'.names, dict[n]) == Some(n)
    decreases |objs|
  {
    if |objs| > 0 {
      var i := |objs| - 1;
      NameAllCurrent(st, objs[..i], prefix, offset);
      var prev := NameAll(st, objs[..i], prefix, offset).value;
      var next := SetUniqueName(prev.0, objs[i], prefix + NatToString(i + offset), prev.1.Keys).value;
      forall n | n in prev.1 ensures prev.1[n] != objs[i] {
        assert prev.1[n] in prev.1.Values;
      }
    }
  }

  /** The objects of a model, as the modelling API enumerates them. */
  datatype CpModel = CpModel(
    intVars: seq<ObjId>,
    intervalVars: seq<ObjId>,
    sequenceVars: seq<ObjId>,
    stateFunctions: seq<ObjId>,
    constraints: seq<ObjId>)

  /** The name-to-object dictionaries built before a solve.  The constraint
      dictionary of the C# code maps a name to the constraint's rendering,
      which is computed by the modelling API; here it maps to the constraint. */
  datatype Dictionaries = Dictionaries(
    intVars: map<string, ObjId>,
    intervalVars: map<string, ObjId>,
    sequenceVars: map<string, ObjId>,
    stateFunctions: map<string, ObjId>,
    constraints: map<string, ObjId>)

  /** The list without repeats, keeping first occurrences in order. */
  function Dedup(s: seq<ObjId>): (r: seq<ObjId>)
    ensures Distinct(r)
    ensures forall x :: x in r <==> x in s
    ensures |r| <= |s|
  {
    Extend([], s)
  }

  /** `BuildVariableDictionarys`: clears the rename table, then names the
      objects kind by kind; constraints are counted from 1 over the list
      without repeats. */
  function Build(m: CpModel, names: Names): (r: Result<(Naming, Dictionaries)>)
    ensures r.Ok? ==> var d := r.value.1;
      |d.intVars| == |m.intVars| && |d.intervalVars| == |m.intervalVars| &&
      |d.sequenceVars| == |m.sequenceVars| && |d.stateFunctions| == |m.stateFunctions| &&
      |d.constraints| == |Dedup(m.constraints)|
  {
    var s0 := Naming(names, map[]);
    var (s1, iv) :- NameAll(s0, m.intVars, "IntVar_", 0);
    var (s2, itv) :- NameAll(s1, m.intervalVars, "IntervalVar_", 0);
    var (s3, sq) :- NameAll(s2, m.sequenceVars, "IntervalSequenceVar_", 0);
    var (s4, sf) :- NameAll(s3, m.stateFunctions, "StateFunction_", 0);
    var (s5, ct) :- NameAll(s4, Dedup(m.constraints), "Constraint_", 1);
    Ok((s5, Dictionaries(iv, itv, sq, sf, ct)))
  }

  /** No object is in both lists. */
  predicate Apart(a: seq<ObjId>, b: seq<ObjId>) {
    forall x :: x in a ==> x !in b
  }

  /** The objects as the modelling API enumerates them: each kind lists its
      objects once, and objects of different kinds are different objects. */
  predicate Enumerated(m: CpModel) {
    Distinct(m.intVars) && Distinct(m.intervalVars) && Distinct(m.sequenceVars) && Distinct(m.stateFunctions) &&
    Apart(m.intVars, m.intervalVars) && Apart(m.intVars, m.sequenceVars) && Apart(m.intVars, m.stateFunctions) &&
    Apart(m.intVars, m.constraints) && Apart(m.intervalVars, m.sequenceVars) &&
    Apart(m.intervalVars, m.stateFunctions) && Apart(m.intervalVars, m.constraints) &&
    Apart(m.sequenceVars, m.stateFunctions) && Apart(m.sequenceVars, m.constraints) &&
    Apart(m.stateFunctions, m.constraints)
  }

  /** `NamedAsSource` depends only on the names of the listed objects. */
  lemma NamedAsSourceTransport(orig: Names, now: Names, orig': Names, now': Names, dict: map<string, ObjId>,
                               objs: seq<ObjId>, prefix: string, offset: nat)
    requires NamedAsSource(orig, now, dict, objs, prefix, offset)
    requires forall x :: x in objs ==> NameOf(orig', x) == NameOf(orig, x) && NameOf(now', x) == NameOf(now, x)
    ensures NamedAsSource(orig', now', dict, objs, prefix, offset)
  {
    forall i | 0 <= i < |objs| ensures NamedAt(orig', now', dict, objs, prefix, offset, i) {
      assert NamedAt(orig, now, dict, objs, prefix, offset, i);
      assert objs[i] in objs;
    }
  }

  /** `BuildVariableDictionarys` names the i-th integer variable, interval,
      sequence and state function after `IntVar_i`, `IntervalVar_i`,
      `IntervalSequenceVar_i` and `StateFunction_i` when it has no name, and
      the n-th distinct constraint after `Constraint_n`, counting from 1; a
      name already taken within its kind gets the least free `_k` suffix. */
  lemma BuildNames(m: CpModel, names: Names)
    requires Build(m, names).Ok? && Enumerated(m)
    ensures var (st, d) := Build(m, names).value;
            NamedAsSource(names, st.names, d.intVars, m.intVars, "IntVar_", 0) &&
            NamedAsSource(names, st.names, d.intervalVars, m.intervalVars, "IntervalVar_", 0) &&
            NamedAsSource(names, st.names, d.sequenceVars, m.sequenceVars, "IntervalSequenceVar_", 0) &&
            NamedAsSource(names, st.names, d.stateFunctions, m.stateFunctions, "StateFunction_", 0) &&
            NamedAsSource(names, st.names, d.constraints, Dedup(m.constraints), "Constraint_", 1)
  {
    var cs := Dedup(m.constraints);
    var s0 := Naming(names, map[]);
    var (s1, iv) := NameAll(s0, m.intVars, "IntVar_", 0).value;
    var (s2, itv) := NameAll(s1, m.intervalVars, "IntervalVar_", 0).value;
    var (s3, sq) := NameAll(s2, m.sequenceVars, "IntervalSequenceVar_", 0).value;
    var (s4, sf) := NameAll(s3, m.stateFunctions, "StateFunction_", 0).value;
    var (s5, ct) := NameAll(s4, cs, "Constraint_", 1).value;
    assert Build(m, names).value == (s5, Dictionaries(iv, itv, sq, sf, ct));
    NameAllFrame(s0, m.intVars, "IntVar_", 0);
    NameAllFrame(s1, m.intervalVars, "IntervalVar_", 0);
    NameAllFrame(s2, m.sequenceVars, "IntervalSequenceVar_", 0);
    NameAllFrame(s3, m.stateFunctions, "StateFunction_", 0);
    NameAllFrame(s4, cs, "Constraint_", 1);
    NameAllNames(s0, m.intVars, "IntVar_", 0);
    NameAllNames(s1, m.intervalVars, "IntervalVar_", 0);
    NameAllNames(s2, m.sequenceVars, "IntervalSequenceVar_", 0);
    NameAllNames(s3, m.stateFunctions, "StateFunction_", 0);
    NameAllNames(s4, cs, "Constraint_", 1);
    NamedAsSourceTransport(names, s1.names, names, s5.names, iv, m.intVars, "IntVar_", 0);
    NamedAsSourceTransport(s1.names, s2.names, names, s5.names, itv, m.intervalVars, "IntervalVar_", 0);
    NamedAsSourceTransport(s2.names, s3.names, names, s5.names, sq, m.sequenceVars, "IntervalSequenceVar_", 0);
    NamedAsSourceTransport(s3.names, s4.names, names, s5.names, sf, m.stateFunctions, "StateFunction_", 0);
    NamedAsSourceTransport(s4.names, s5.names, names, s5.names, ct, cs, "Constraint_", 1);
  }

  /** `restoreRenamedVarsToOriginName`: every recorded object gets its
      original name back. */
  function Restore(st: Naming): (r: Names)
    ensures forall o :: o in st.renamed ==> NameOf(r, o) == st.renamed[o]
    ensures forall o :: o !in st.renamed ==> NameOf(r, o) == NameOf(st.names, o)
  {
    map o | o in st.names.Keys + st.renamed.Keys :: if o in st.renamed then st.renamed[o] else st.names[o]
  }

  /** Naming a model and then restoring gives back exactly the names the
      model had. */
  lemma BuildThenRestore(m: CpModel, names: Names)
    requires Build(m, names).Ok?
    ensures SameNames(Restore(Build(m, names).value.0), names)
  {
    var s0 := Naming(names, map[]);
    NameAllTracks(names, s0, m.intVars, "IntVar_", 0);
    var s1 := NameAll(s0, m.intVars, "IntVar_", 0).value.0;
    NameAllTracks(names, s1, m.intervalVars, "IntervalVar_", 0);
    var s2 := NameAll(s1, m.intervalVars, "IntervalVar_", 0).value.0;
    NameAllTracks(names, s2, m.sequenceVars, "IntervalSequenceVar_", 0);
    var s3 := NameAll(s2, m.sequenceVars, "IntervalSequenceVar_", 0).value.0;
    NameAllTracks(names, s3, m.stateFunctions, "StateFunction_", 0);
    var s4 := NameAll(s3, m.stateFunctions, "StateFunction_", 0).value.0;
    NameAllTracks(names, s4, Dedup(m.constraints), "Constraint_", 1);
  }

  const DuplicateName := "Duplicate model object name "

  /** `checkNoDuplicateNameInModel`: a name that was the original name of a
      renamed object is ambiguous. */
  function CheckNoDuplicate(st: Naming, name: string): (r: Outcome)
    ensures r.Fail? <==> exists o :: o in st.renamed && st.renamed[o] == Some(name)
    ensures r.Fail? ==> r.msg == DuplicateName + name
  {
    if Some(name) in st.renamed.Values then Fail(DuplicateName + name) else Pass
  }
}
