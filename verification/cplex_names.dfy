/** The CPLEX engine's naming strategy (`ExternalCplex.Process`, first
    half): every variable is renamed `vv<k>` and every range `cc<k>`, `k`
    counting the distinct objects of the kind, and the original names,
    possibly null, are kept for the restore. */
module CplexNames {
  import opened Wrappers
  import opened Strs
  import opened ModelObjects

  type VarId = o: ObjId | o.kind == NumVar witness ObjId(NumVar, 0)
  type RngId = o: ObjId | o.kind == Range witness ObjId(Range, 0)

  /** What the model enumerator yields, as far as the naming tells apart. */
  datatype Element =
    | LPMatrix(ranges: seq<RngId>)
    | Objective
    | RangeElem(r: RngId)
    | VarElem(v: VarId)
    | Conversion
    | Unhandled(desc: string)

  /** The variables the engine created, in creation order, and the elements
      the model enumerates. */
  datatype CplexModel = CplexModel(variables: seq<VarId>, elements: seq<Element>)

  const CannotHandle := "Cannot handle "

  /** `String.Format("vv{0}", k)` and `String.Format("cc{0}", k)`. */
  function Tag(prefix: string, k: nat): string {
    prefix + NatToString(k)
  }

  lemma TagInjective(prefix: string, a: nat, b: nat)
    ensures Tag(prefix, a) == Tag(prefix, b) <==> a == b
  {
    if Tag(prefix, a) == Tag(prefix, b) {
      assert prefix + "" == prefix;
      assert prefix + "" + NatToString(a) == prefix + "" + NatToString(b);
      SuffixedInjective(prefix, "", a, b);
    }
  }

  /** The names of the first `n` objects of a kind. */
  function Known(prefix: string, n: nat): set<string> {
    set k | 1 <= k <= n :: Tag(prefix, k)
  }

  lemma KnownStep(prefix: string, n: nat)
    ensures Known(prefix, n + 1) == Known(prefix, n) + {Tag(prefix, n + 1)}
  {
    var big, small := Known(prefix, n + 1), Known(prefix, n);
    forall x | x in big ensures x in small || x == Tag(prefix, n + 1) {
      var k :| 1 <= k <= n + 1 && x == Tag(prefix, k);
      if k <= n {
        assert x in small;
      }
    }
    forall x | x in small ensures x in big {
      var k :| 1 <= k <= n && x == Tag(prefix, k);
      assert x in big;
    }
    assert Tag(prefix, n + 1) in big;
  }

  /** One kind's bookkeeping: the objects in the order they were first seen
      (the dictionary of old names has one entry per object, so its `Count`
      is the length of `order`), their original names, and the dictionary
      from assigned name to object. */
  datatype Registry = Registry(order: seq<ObjId>, originals: map<ObjId, Option<string>>, byName: map<string, ObjId>)

  const Unregistered := Registry([], map[], map[])

  /** `AddVariable` / `AddRange`: an object seen before is skipped;
      otherwise its current name is kept as the original and it is renamed
      after the new count. */
  function Register(names: Names, reg: Registry, o: ObjId, prefix: string): (r: (Names, Registry))
    ensures o in reg.originals ==> r == (names, reg)
    ensures o !in reg.originals ==>
              NameOf(r.0, o) == Some(Tag(prefix, |reg.order| + 1)) &&
              r.1.order == reg.order + [o] &&
              r.1.originals == reg.originals[o := NameOf(names, o)] &&
              r.1.byName == reg.byName[Tag(prefix, |reg.order| + 1) := o]
    ensures forall x :: x != o ==> NameOf(r.0, x) == NameOf(names, x)
  {
    if o in reg.originals then (names, reg)
    else
      var name := Tag(prefix, |reg.order| + 1);
      (names[o := Some(name)],
       Registry(reg.order + [o], reg.originals[o := NameOf(names, o)], reg.byName[name := o]))
  }

  /** The registry of one kind is consistent with the names: objects are
      recorded once, with their name before any renaming, and the `i`-th one
      carries, and is found under, the `i`-th tag. */
  ghost predicate RegOk(orig: Names, names: Names, reg: Registry, prefix: string, kind: Kind) {
    Recorded(orig, reg, kind) && Tagged(names, reg, prefix)
  }

  ghost predicate Recorded(orig: Names, reg: Registry, kind: Kind) {
    Distinct(reg.order) &&
    (forall o :: o in reg.originals <==> o in reg.order) &&
    (forall o :: o in reg.originals ==> o.kind == kind && reg.originals[o] == NameOf(orig, o))
  }

  ghost predicate Tagged(names: Names, reg: Registry, prefix: string) {
    (forall i :: 0 <= i < |reg.order| ==> NameOf(names, reg.order[i]) == Some(Tag(prefix, i + 1))) &&
    reg.byName.Keys == Known(prefix, |reg.order|) &&
    Filed(reg.byName, reg.order, prefix)
  }

  /** The `i`-th object is found under the `i`-th tag. */
  ghost predicate Filed(byName: map<string, ObjId>, order: seq<ObjId>, prefix: string) {
    forall i :: 0 <= i < |order| ==> MapsTo(byName, Tag(prefix, i + 1), order[i])
  }

  predicate MapsTo(m: map<string, ObjId>, k: string, v: ObjId) {
    k in m && m[k] == v
  }

  lemma RegisterRecorded(orig: Names, names: Names, reg: Registry, o: ObjId, prefix: string, kind: Kind)
    requires Recorded(orig, reg, kind) && o.kind == kind && o !in reg.originals
    requires NameOf(names, o) == NameOf(orig, o)
    ensures Recorded(orig, Register(names, reg, o, prefix).1, kind)
  {
    var reg' := Register(names, reg, o, prefix).1;
    var n := |reg.order|;
    assert o !in reg.order;
    assert reg'.order[n] == o;
    forall i, j | 0 <= i < j < |reg'.order| ensures reg'.order[i] != reg'.order[j] {
      if j == n {
        assert reg'.order[i] == reg.order[i];
      } else {
        assert reg'.order[i] == reg.order[i] && reg'.order[j] == reg.order[j];
      }
    }
  }

  lemma RegisterTagged(names: Names, reg: Registry, o: ObjId, prefix: string)
    requires Tagged(names, reg, prefix) && o !in reg.order
    ensures Tagged(Register(names, reg, o, prefix).0, Register(names, reg, o, prefix).1, prefix)
  {
    var (names', reg') := Register(names, reg, o, prefix);
    if o in reg.originals {
      return;
    }
    var n := |reg.order|;
    NamesStep(names, names', reg.order, o, prefix);
    ByNameStep(reg.byName, reg.order, o, prefix);
    KnownStep(prefix, n);
    assert reg'.byName.Keys == reg.byName.Keys + {Tag(prefix, n + 1)};
  }

  /** Renaming a new object after the next tag keeps the earlier objects'
      tags. */
  lemma NamesStep(names: Names, names': Names, order: seq<ObjId>, o: ObjId, prefix: string)
    requires forall i :: 0 <= i < |order| ==> NameOf(names, order[i]) == Some(Tag(prefix, i + 1))
    requires o !in order && NameOf(names', o) == Some(Tag(prefix, |order| + 1))
    requires forall x :: x != o ==> NameOf(names', x) == NameOf(names, x)
    ensures forall i :: 0 <= i < |order + [o]| ==> NameOf(names', (order + [o])[i]) == Some(Tag(prefix, i + 1))
  {
    var order' := order + [o];
    forall i | 0 <= i < |order'| ensures NameOf(names', order'[i]) == Some(Tag(prefix, i + 1)) {
      if i < |order| {
        assert order'[i] == order[i] && order[i] != o;
      }
    }
  }

  /** Filing a new object under the next tag keeps the earlier tags'
      entries, since tags of different counts differ. */
  lemma ByNameStep(byName: map<string, ObjId>, order: seq<ObjId>, o: ObjId, prefix: string)
    requires Filed(byName, order, prefix)
    ensures Filed(byName[Tag(prefix, |order| + 1) := o], order + [o], prefix)
  {
    var n, order' := |order|, order + [o];
    forall i | 0 <= i < |order'| ensures MapsTo(byName[Tag(prefix, n + 1) := o], Tag(prefix, i + 1), order'[i]) {
      if i < n {
        TagInjective(prefix, i + 1, n + 1);
        assert order'[i] == order[i];
      } else {
        assert order'[i] == o;
      }
    }
  }

  lemma RegisterOk(orig: Names, names: Names, reg: Registry, o: ObjId, prefix: string, kind: Kind)
    requires RegOk(orig, names, reg, prefix, kind) && o.kind == kind
    requires o !in reg.originals ==> NameOf(names, o) == NameOf(orig, o)
    ensures RegOk(orig, Register(names, reg, o, prefix).0, Register(names, reg, o, prefix).1, prefix, kind)
  {
    if o !in reg.originals {
      RegisterRecorded(orig, names, reg, o, prefix, kind);
      RegisterTagged(names, reg, o, prefix);
    }
  }

  /** A registry stays consistent when names change only outside it. */
  lemma RegOkFrame(orig: Names, names: Names, names': Names, reg: Registry, prefix: string, kind: Kind)
    requires RegOk(orig, names, reg, prefix, kind)
    requires forall x :: x in reg.originals ==> NameOf(names', x) == NameOf(names, x)
    ensures RegOk(orig, names', reg, prefix, kind)
  {
    forall i | 0 <= i < |reg.order| ensures NameOf(names', reg.order[i]) == Some(Tag(prefix, i + 1)) {
      assert reg.order[i] in reg.originals;
    }
  }

  /** The names during the solve, with both kinds' bookkeeping. */
  datatype Renaming = Renaming(names: Names, vars: Registry, rngs: Registry)

  function Start(names: Names): Renaming {
    Renaming(names, Unregistered, Unregistered)
  }

  function AddVariable(st: Renaming, v: VarId): (r: Renaming)
    ensures r.rngs == st.rngs
  {
    var (names, vars) := Register(st.names, st.vars, v, "vv");
    Renaming(names, vars, st.rngs)
  }

  function AddRange(st: Renaming, rg: RngId): (r: Renaming)
    ensures r.vars == st.vars
  {
    var (names, rngs) := Register(st.names, st.rngs, rg, "cc");
    Renaming(names, st.vars, rngs)
  }

  /** Both registries are consistent, and an object in neither still has its
      original name. */
  ghost predicate Wf(orig: Names, st: Renaming) {
    RegOk(orig, st.names, st.vars, "vv", NumVar) &&
    RegOk(orig, st.names, st.rngs, "cc", Range) &&
    forall o :: o !in st.vars.originals && o !in st.rngs.originals ==> NameOf(st.names, o) == NameOf(orig, o)
  }

  lemma StartWf(names: Names)
    ensures Wf(names, Start(names))
  {
    assert Known("vv", 0) == {};
    assert Known("cc", 0) == {};
  }

  lemma AddVariableWf(orig: Names, st: Renaming, v: VarId)
    requires Wf(orig, st)
    ensures Wf(orig, AddVariable(st, v))
  {
    var r := AddVariable(st, v);
    assert v !in st.rngs.originals;
    RegisterOk(orig, st.names, st.vars, v, "vv", NumVar);
    RegOkFrame(orig, st.names, r.names, st.rngs, "cc", Range);
  }

  lemma AddRangeWf(orig: Names, st: Renaming, rg: RngId)
    requires Wf(orig, st)
    ensures Wf(orig, AddRange(st, rg))
  {
    var r := AddRange(st, rg);
    assert rg !in st.vars.originals;
    RegisterOk(orig, st.names, st.rngs, rg, "cc", Range);
    RegOkFrame(orig, st.names, r.names, st.vars, "vv", NumVar);
  }

  /** The loop over the engine's variables. */
  function NameVars(st: Renaming, vs: seq<VarId>): (r: Renaming)
    ensures r.rngs == st.rngs
    decreases |vs|
  {
    if |vs| == 0 then st else AddVariable(NameVars(st, vs[..|vs| - 1]), vs[|vs| - 1])
  }

  function NameRanges(st: Renaming, rs: seq<RngId>): (r: Renaming)
    ensures r.vars == st.vars
    decreases |rs|
  {
    if |rs| == 0 then st else AddRange(NameRanges(st, rs[..|rs| - 1]), rs[|rs| - 1])
  }

  /** The variables get the order of their first occurrence. */
  lemma {:induction false} NameVarsOrder(orig: Names, st: Renaming, vs: seq<VarId>)
    requires Wf(orig, st)
    ensures Wf(orig, NameVars(st, vs))
    ensures NameVars(st, vs).vars.order == Extend(st.vars.order, vs)
    decreases |vs|
  {
    if |vs| > 0 {
      var prev := NameVars(st, vs[..|vs| - 1]);
      NameVarsOrder(orig, st, vs[..|vs| - 1]);
      AddVariableWf(orig, prev, vs[|vs| - 1]);
    }
  }

  lemma {:induction false} NameRangesOrder(orig: Names, st: Renaming, rs: seq<RngId>)
    requires Wf(orig, st)
    ensures Wf(orig, NameRanges(st, rs))
    ensures NameRanges(st, rs).rngs.order == Extend(st.rngs.order, rs)
    decreases |rs|
  {
    if |rs| > 0 {
      var prev := NameRanges(st, rs[..|rs| - 1]);
      NameRangesOrder(orig, st, rs[..|rs| - 1]);
      AddRangeWf(orig, prev, rs[|rs| - 1]);
    }
  }

  /** The ranges an element contributes: those of an LP matrix, or the
      range itself. */
  function RangesIn(e: Element): seq<ObjId> {
    match e
    case LPMatrix(rs) => rs
    case RangeElem(rg) => [rg]
    case _ => []
  }

  function RangesOf(es: seq<Element>): seq<ObjId>
    decreases |es|
  {
    if |es| == 0 then [] else RangesOf(es[..|es| - 1]) + RangesIn(es[|es| - 1])
  }

  /** One step of the enumeration loop; an element of any other type stops
      the naming with "Cannot handle". */
  function NameElement(st: Renaming, e: Element): (r: (Renaming, Option<string>))
    ensures r.1.Some? <==> e.Unhandled?
    ensures e.Unhandled? ==> r == (st, Some(CannotHandle + e.desc))
    ensures r.0.vars == st.vars
  {
    match e
    case LPMatrix(rs) => (NameRanges(st, rs), None)
    case Objective => (st, None)
    case RangeElem(rg) => (AddRange(st, rg), None)
    case VarElem(_) => (st, None)
    case Conversion => (st, None)
    case Unhandled(desc) => (st, Some(CannotHandle + desc))
  }

  /** The enumeration loop: it stops at the first unhandled element, with
      the names given so far. */
  function NameElements(st: Renaming, es: seq<Element>): (r: (Renaming, Option<string>))
    ensures r.1.Some? <==> exists i :: 0 <= i < |es| && es[i].Unhandled?
    ensures r.1.Some? ==>
              exists i :: 0 <= i < |es| && es[i].Unhandled? && r.1 == Some(CannotHandle + es[i].desc) &&
                          forall j :: 0 <= j < i ==> !es[j].Unhandled?
    ensures r.0.vars == st.vars
    decreases |es|
  {
    if |es| == 0 then (st, None)
    else
      var front := es[..|es| - 1];
      assert forall j :: 0 <= j < |front| ==> front[j] == es[j];
      var (s1, err) := NameElements(st, front);
      if err.Some? then (s1, err) else NameElement(s1, es[|es| - 1])
  }

  lemma {:induction false} NameElementsOrder(orig: Names, st: Renaming, es: seq<Element>)
    requires Wf(orig, st)
    ensures Wf(orig, NameElements(st, es).0)
    ensures NameElements(st, es).1.None? ==> NameElements(st, es).0.rngs.order == Extend(st.rngs.order, RangesOf(es))
    decreases |es|
  {
    if |es| > 0 {
      var front := es[..|es| - 1];
      var last := es[|es| - 1];
      NameElementsOrder(orig, st, front);
      var (s1, err) := NameElements(st, front);
      if err.None? {
        assert NameElements(st, es) == NameElement(s1, last);
        NameElementOrder(orig, s1, last);
        ExtendAppend(st.rngs.order, RangesOf(front), RangesIn(last));
      }
    }
  }

  /** One handled element extends the ranges by the ones it contributes. */
  lemma NameElementOrder(orig: Names, st: Renaming, e: Element)
    requires Wf(orig, st)
    ensures Wf(orig, NameElement(st, e).0)
    ensures NameElement(st, e).1.None? ==> NameElement(st, e).0.rngs.order == Extend(st.rngs.order, RangesIn(e))
  {
    match e {
      case LPMatrix(rs) => NameRangesOrder(orig, st, rs);
      case RangeElem(rg) =>
        AddRangeWf(orig, st, rg);
        assert [rg][..0] == [];
      case _ =>
    }
  }

  /** Naming the whole model: the variables first, then the ranges of the
      enumerated elements. */
  function Naming(names: Names, m: CplexModel): (r: (Renaming, Option<string>))
    ensures r.1.Some? <==> exists i :: 0 <= i < |m.elements| && m.elements[i].Unhandled?
    ensures r.1.Some? ==>
              exists i :: 0 <= i < |m.elements| && m.elements[i].Unhandled? && r.1 == Some(CannotHandle + m.elements[i].desc)
                          && forall j :: 0 <= j < i ==> !m.elements[j].Unhandled?
  {
    NameElements(NameVars(Start(names), m.variables), m.elements)
  }

  /** `k`-th distinct variable is named `vv<k>` and the `k`-th distinct range
      `cc<k>`; each tag leads back to its object. */
  lemma NamingAssignsTags(names: Names, m: CplexModel)
    ensures var st := Naming(names, m).0;
            Wf(names, st) && st.vars.order == Extend([], m.variables) &&
            (Naming(names, m).1.None? ==> st.rngs.order == Extend([], RangesOf(m.elements)))
    ensures var st := Naming(names, m).0;
            forall i :: 0 <= i < |st.vars.order| ==> NameOf(st.names, st.vars.order[i]) == Some(Tag("vv", i + 1))
    ensures var st := Naming(names, m).0;
            forall i :: 0 <= i < |st.rngs.order| ==> NameOf(st.names, st.rngs.order[i]) == Some(Tag("cc", i + 1))
  {
    StartWf(names);
    NameVarsOrder(names, Start(names), m.variables);
    NameElementsOrder(names, NameVars(Start(names), m.variables), m.elements);
  }

  /** The names of a kind's objects are pairwise distinct. */
  lemma TagsDistinct(orig: Names, st: Renaming, a: ObjId, b: ObjId)
    requires Wf(orig, st)
    requires a in st.vars.originals && b in st.vars.originals && a != b
    ensures NameOf(st.names, a) != NameOf(st.names, b)
  {
    var i :| 0 <= i < |st.vars.order| && st.vars.order[i] == a;
    var j :| 0 <= j < |st.vars.order| && st.vars.order[j] == b;
    TagInjective("vv", i + 1, j + 1);
  }

  /** The `finally` block: every recorded object gets its original name
      back, null included. */
  function Restore(st: Renaming): (r: Names)
    ensures forall o :: o in st.rngs.originals ==> NameOf(r, o) == st.rngs.originals[o]
    ensures forall o :: o in st.vars.originals && o !in st.rngs.originals ==> NameOf(r, o) == st.vars.originals[o]
    ensures forall o :: o !in st.vars.originals && o !in st.rngs.originals ==> NameOf(r, o) == NameOf(st.names, o)
  {
    st.names + st.vars.originals + st.rngs.originals
  }

  lemma RestoreUndoes(orig: Names, st: Renaming)
    requires Wf(orig, st)
    ensures SameNames(Restore(st), orig)
  {
    forall o ensures NameOf(Restore(st), o) == NameOf(orig, o) {
      if o in st.rngs.originals {
      } else if o in st.vars.originals {
      }
    }
  }

  /** A dictionary of a consistent registry maps distinct names to distinct
      objects. */
  lemma ByNameOneToOne(orig: Names, names: Names, reg: Registry, prefix: string, kind: Kind, keys: set<string>)
    requires RegOk(orig, names, reg, prefix, kind) && keys <= reg.byName.Keys
    ensures OneToOne(keys, reg.byName)
  {
    forall a, b | a in keys && b in keys && a != b ensures reg.byName[a] != reg.byName[b] {
      var i :| 1 <= i <= |reg.order| && a == Tag(prefix, i);
      var j :| 1 <= j <= |reg.order| && b == Tag(prefix, j);
      assert reg.byName[a] == reg.order[i - 1];
      assert reg.byName[b] == reg.order[j - 1];
    }
  }
}
