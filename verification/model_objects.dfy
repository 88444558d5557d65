/** Modelling objects of the optimisation model as the bridge sees them: an
    identity plus a mutable, possibly null name.  The names of all objects
    form one map; an object missing from the map has no name. */
module ModelObjects {
  import opened Wrappers
  import opened Strs
  import opened Num

  datatype Kind =
    | NumVar
    | Range
    | IntVar
    | IntervalVar
    | SequenceVar
    | StateFunction
    | Constraint

  /** Object identity (reference equality in the C# code). */
  datatype ObjId = ObjId(kind: Kind, index: nat)

  type Names = map<ObjId, Option<string>>

  /** `ToString()` of a modelling object, which the modelling library
      renders; here a fixed rendering of the identity. */
  function Describe(o: ObjId): string {
    KindName(o.kind) + "#" + NatToString(o.index)
  }

  function KindName(k: Kind): string {
    match k
    case NumVar => "NumVar"
    case Range => "Range"
    case IntVar => "IntVar"
    case IntervalVar => "IntervalVar"
    case SequenceVar => "SequenceVar"
    case StateFunction => "StateFunction"
    case Constraint => "Constraint"
  }

  /** What the bridge can observe of a CPLEX constraint object through type
      tests: a range with its bounds (and whether its expression is a
      quadratic-linear expression), an SOS, an if-then, a logical
      combination, or any other constraint. */
  datatype Shape =
    | RangeShape(lb: Double, ub: Double, quadratic: bool)
    | Sos1
    | Sos2
    | IfThen
    | And
    | Or
    | Not
    | General

  datatype Constraint = Constraint(id: ObjId, shape: Shape)

  function NameOf(names: Names, o: ObjId): Option<string> {
    if o in names then names[o] else None
  }

  /** The same objects under the same names. */
  ghost predicate SameNames(a: Names, b: Names) {
    forall o :: NameOf(a, o) == NameOf(b, o)
  }

  /** The list holds no object twice. */
  predicate Distinct<T(==)>(s: seq<T>) {
    forall i, j :: 0 <= i < j < |s| ==> s[i] != s[j]
  }

  const NoSolution := "No solution available"
  const IndexOutOfRange := "Index was outside the bounds of the array."
  const NullKey := "Value cannot be null. (Parameter 'key')"
  const DuplicateKey := "An item with the same key has already been added."

  /** No two names of `keys` resolve to the same object. */
  predicate OneToOne(keys: set<string>, dict: map<string, ObjId>)
    requires keys <= dict.Keys
  {
    forall a, b :: a in keys && b in keys && a != b ==> dict[a] != dict[b]
  }

  /** Adds the entries of a name-keyed map to an object-keyed one, under the
      objects the dictionary resolves the names to.  An unresolved name is a
      null key, which `Dictionary.Add` rejects, as it rejects a second entry
      for the same object. */
  function Rekey<V>(dst: map<ObjId, V>, src: map<string, V>, dict: map<string, ObjId>): (r: Result<map<ObjId, V>>)
    ensures r.Ok? <==>
              src.Keys <= dict.Keys && OneToOne(src.Keys, dict) && (forall n :: n in src ==> dict[n] !in dst)
    ensures r.Ok? ==> r.value.Keys == dst.Keys + set n | n in src :: dict[n]
    ensures r.Ok? ==> forall n :: n in src ==> r.value[dict[n]] == src[n]
    ensures r.Ok? ==> forall o :: o in dst ==> r.value[o] == dst[o]
    ensures r.Err? && !(src.Keys <= dict.Keys) ==> r.msg == NullKey
  {
    if !(src.Keys <= dict.Keys) then Err(NullKey)
    else if !OneToOne(src.Keys, dict) || exists n :: n in src && dict[n] in dst then Err(DuplicateKey)
    else Ok(dst + Resolved(src, dict))
  }

  /** Nothing to re-key always succeeds and adds nothing. */
  lemma RekeyNothing<V>(dst: map<ObjId, V>, src: map<string, V>, dict: map<string, ObjId>)
    requires src == map[]
    ensures Rekey(dst, src, dict) == Ok(dst)
  {
    assert Resolved(src, dict) == map[];
    assert dst + map[] == dst;
  }

  function Resolved<V>(src: map<string, V>, dict: map<string, ObjId>): (m: map<ObjId, V>)
    requires src.Keys <= dict.Keys && OneToOne(src.Keys, dict)
    ensures m.Keys == set n | n in src :: dict[n]
    ensures forall n :: n in src ==> m[dict[n]] == src[n]
  {
    map n | n in src :: dict[n] := src[n]
  }

  /** `acc` followed by the elements of `s` it does not hold yet, each at its
      first occurrence: the insertion order of a dictionary that skips keys
      it already has. */
  function Extend(acc: seq<ObjId>, s: seq<ObjId>): (r: seq<ObjId>)
    ensures Distinct(acc) ==> Distinct(r)
    ensures forall x :: x in r <==> x in acc || x in s
    ensures |r| <= |acc| + |s|
    ensures |acc| <= |r| && r[..|acc|] == acc
    decreases |s|
  {
    if |s| == 0 then acc
    else
      var d := Extend(acc, s[..|s| - 1]);
      assert forall x :: x in s[..|s| - 1] ==> x in s;
      assert forall x :: x in s ==> x in s[..|s| - 1] || x == s[|s| - 1];
      if s[|s| - 1] in d then d else d + [s[|s| - 1]]
  }

  /** Extending by two parts in turn is extending by both at once. */
  lemma {:induction false} ExtendAppend(acc: seq<ObjId>, s: seq<ObjId>, t: seq<ObjId>)
    ensures Extend(acc, s + t) == Extend(Extend(acc, s), t)
    decreases |t|
  {
    if |t| == 0 {
      assert s + t == s;
    } else {
      assert (s + t)[..|s + t| - 1] == s + t[..|t| - 1];
      assert (s + t)[|s + t| - 1] == t[|t| - 1];
      ExtendAppend(acc, s, t[..|t| - 1]);
    }
  }
}
