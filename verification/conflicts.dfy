/** The conflict-refiner directive (`Conflicts`): constraints grouped by
    preference and written as a `<CPLEXRefineconflictext>` document. */
module Conflicts {
  import opened Wrappers
  import opened Strs
  import opened Num
  import opened ModelObjects

  /** The constraints added under one preference, in insertion order. */
  datatype Group = Group(preference: Double, members: seq<Constraint>)

  /** The preference groups in the order their preferences first appeared. */
  datatype Conflicts = Conflicts(groups: seq<Group>)

  const Empty := Conflicts([])

  const NotSupportedType := "Type of constraint is not supported by WML conflict refiner: "
  const NotYet := "This is not supported yet"
  const MissingName := "Missing name for relaxing "
  const Header := "<CPLEXRefineconflictext resultNames='true'>"
  const Footer := "</CPLEXRefineconflictext>"

  /** The dictionary keys: no preference has two groups. */
  predicate Keyed(cs: Conflicts) {
    forall i, j :: 0 <= i < j < |cs.groups| ==> cs.groups[i].preference != cs.groups[j].preference
  }

  function Total(gs: seq<Group>): nat
    decreases |gs|
  {
    if |gs| == 0 then 0 else |gs[0].members| + Total(gs[1..])
  }

  /** `GetSize`: the entries of all groups. */
  function Size(cs: Conflicts): nat {
    Total(cs.groups)
  }

  lemma {:induction false} TotalAppend(gs: seq<Group>, g: Group)
    ensures Total(gs + [g]) == Total(gs) + |g.members|
    decreases |gs|
  {
    if |gs| > 0 {
      assert (gs + [g])[1..] == gs[1..] + [g];
      TotalAppend(gs[1..], g);
    } else {
      assert gs + [g] == [g];
      assert [g][1..] == [];
    }
  }

  lemma {:induction false} TotalUpdate(gs: seq<Group>, i: nat, g: Group)
    requires i < |gs|
    ensures Total(gs[i := g]) + |gs[i].members| == Total(gs) + |g.members|
    decreases |gs|
  {
    if i > 0 {
      assert gs[i := g][1..] == gs[1..][i - 1 := g];
      TotalUpdate(gs[1..], i - 1, g);
    } else {
      assert gs[i := g][1..] == gs[1..];
    }
  }

  /** The group of preference `p`, or -1. */
  function Find(gs: seq<Group>, p: Double): (i: int)
    ensures -1 <= i < |gs|
    ensures i == -1 <==> forall k :: 0 <= k < |gs| ==> gs[k].preference != p
    ensures i >= 0 ==> gs[i].preference == p
    decreases |gs|
  {
    if |gs| == 0 then -1
    else if gs[0].preference == p then 0
    else
      var k := Find(gs[1..], p);
      assert forall j :: 1 <= j < |gs| ==> gs[j] == gs[1..][j - 1];
      if k == -1 then -1 else k + 1
  }

  predicate Logical(c: Constraint) {
    c.shape.And? || c.shape.Or? || c.shape.Not?
  }

  /** `Add`: logical combinations are refused with the set unchanged; any
      other constraint joins the group of its preference, which is created
      at the end when the preference is new. */
  function Add(cs: Conflicts, c: Constraint, p: Double): (r: Result<Conflicts>)
    ensures r.Err? <==> Logical(c)
    ensures r.Err? ==> r.msg == NotSupportedType + Describe(c.id)
    ensures r.Ok? ==> Size(r.value) == Size(cs) + 1
    ensures r.Ok? && Keyed(cs) ==> Keyed(r.value)
    ensures r.Ok? && Find(cs.groups, p) == -1 ==> r.value.groups == cs.groups + [Group(p, [c])]
    ensures r.Ok? && Find(cs.groups, p) >= 0 ==>
              var i := Find(cs.groups, p);
              r.value.groups == cs.groups[i := Group(p, cs.groups[i].members + [c])]
  {
    if Logical(c) then Err(NotSupportedType + Describe(c.id))
    else
      var i := Find(cs.groups, p);
      if i == -1 then
        TotalAppend(cs.groups, Group(p, [c]));
        Ok(Conflicts(cs.groups + [Group(p, [c])]))
      else
        var g := Group(p, cs.groups[i].members + [c]);
        TotalUpdate(cs.groups, i, g);
        Ok(Conflicts(cs.groups[i := g]))
  }

  /** The same constraint may be added twice under one preference; both
      entries are kept. */
  lemma DuplicatesKept(c: Constraint, p: Double)
    requires !Logical(c)
    ensures Add(Add(Empty, c, p).value, c, p) == Ok(Conflicts([Group(p, [c, c])]))
  {
    assert Find([], p) == -1;
    assert Empty.groups + [Group(p, [c])] == [Group(p, [c])];
    assert Add(Empty, c, p) == Ok(Conflicts([Group(p, [c])]));
    assert Find([Group(p, [c])], p) == 0;
    assert [c] + [c] == [c, c];
    assert [Group(p, [c])][0 := Group(p, [c] + [c])] == [Group(p, [c, c])];
  }

  /** `GetType(...).ToString().ToLower()`: the tag of a constraint. */
  function TypeTag(c: Constraint): (r: Result<string>)
    ensures r.Ok? ==> r.value in {"sos", "ind", "lin"}
    ensures (c.shape.Sos1? || c.shape.Sos2?) <==> r == Ok("sos")
    ensures c.shape.IfThen? <==> r == Ok("ind")
    ensures r.Err? <==> Logical(c) || (c.shape.RangeShape? && c.shape.quadratic)
    ensures Logical(c) ==> r == Err(NotSupportedType + Describe(c.id))
    ensures c.shape.RangeShape? && c.shape.quadratic ==> r == Err(NotYet)
  {
    match c.shape
    case Sos1 => Ok("sos")
    case Sos2 => Ok("sos")
    case IfThen => Ok("ind")
    case RangeShape(_, _, quadratic) => if quadratic then Err(NotYet) else Ok("lin")
    case And => Err(NotSupportedType + Describe(c.id))
    case Or => Err(NotSupportedType + Describe(c.id))
    case Not => Err(NotSupportedType + Describe(c.id))
    case General => Ok("lin")
  }

  function ConLine(name: string, tag: string): string {
    "<con name='" + name + "' type='" + tag + "'/>"
  }

  /** A constraint can be written: it has a name and a type tag. */
  predicate Writable(names: Names, c: Constraint) {
    NameOf(names, c.id).Some? && TypeTag(c).Ok?
  }

  /** The `<con>` lines of a group; the name is read before the type. */
  function Cons(names: Names, cs: seq<Constraint>): (r: Result<string>)
    ensures r.Ok? <==> forall i :: 0 <= i < |cs| ==> Writable(names, cs[i])
    decreases |cs|
  {
    if |cs| == 0 then Ok("")
    else
      var c := cs[0];
      match NameOf(names, c.id)
      case None => Err(MissingName + Describe(c.id))
      case Some(n) =>
        var tag :- TypeTag(c);
        var rest :- Cons(names, cs[1..]);
        assert forall i :: 1 <= i < |cs| ==> cs[i] == cs[1..][i - 1];
        Ok(ConLine(n, tag) + rest)
  }

  function GroupOpen(p: Double): string {
    "<group preference='" + Show(p) + "'>"
  }

  /** `FillBuffer`: one group element, written even when it is empty. */
  function GroupText(names: Names, g: Group): (r: Result<string>)
    ensures r.Ok? <==> forall i :: 0 <= i < |g.members| ==> Writable(names, g.members[i])
    ensures r.Ok? ==> StartsWith(r.value, GroupOpen(g.preference)) && EndsWith(r.value, "</group>")
  {
    var body :- Cons(names, g.members);
    Framed(GroupOpen(g.preference), body, "</group>");
    Ok(GroupOpen(g.preference) + body + "</group>")
  }

  predicate AllWritable(names: Names, gs: seq<Group>) {
    forall i, j :: 0 <= i < |gs| && 0 <= j < |gs[i].members| ==> Writable(names, gs[i].members[j])
  }

  function GroupsText(names: Names, gs: seq<Group>): (r: Result<string>)
    ensures r.Ok? <==> AllWritable(names, gs)
    decreases |gs|
  {
    if |gs| == 0 then Ok("")
    else
      var a :- GroupText(names, gs[0]);
      var b :- GroupsText(names, gs[1..]);
      assert forall i :: 1 <= i < |gs| ==> gs[i] == gs[1..][i - 1];
      Ok(a + b)
  }

  /** `MakeFile`: the header, one group per preference, the footer.  The
      document is returned as text; its UTF-8 encoding is left out. */
  function MakeFile(names: Names, cs: Conflicts): (r: Result<string>)
    ensures r.Ok? <==> AllWritable(names, cs.groups)
    ensures r.Ok? ==> StartsWith(r.value, Header) && EndsWith(r.value, Footer)
  {
    var body :- GroupsText(names, cs.groups);
    Framed(Header, body, Footer);
    Ok(Header + body + Footer)
  }

  /** One writable constraint gives a document with exactly one group
      holding exactly its line. */
  lemma SingleEntryFile(names: Names, c: Constraint, p: Double, n: string)
    requires !Logical(c) && NameOf(names, c.id) == Some(n) && TypeTag(c).Ok?
    ensures MakeFile(names, Add(Empty, c, p).value) ==
            Ok(Header + (GroupOpen(p) + ConLine(n, TypeTag(c).value) + "</group>") + Footer)
  {
    var g := Group(p, [c]);
    assert Add(Empty, c, p).value.groups == [g];
    assert [c][1..] == [];
    assert Cons(names, [c]) == Ok(ConLine(n, TypeTag(c).value) + "");
    assert ConLine(n, TypeTag(c).value) + "" == ConLine(n, TypeTag(c).value);
    assert [g][1..] == [];
    var t := GroupOpen(p) + ConLine(n, TypeTag(c).value) + "</group>";
    assert GroupsText(names, [g]) == Ok(t + "");
    assert t + "" == t;
  }
}
