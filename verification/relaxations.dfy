/** The FeasOpt directive (`Relaxations`): preferences sorted into four
    buckets and written as a `<CPLEXFeasopt>` document. */
module Relaxations {
  import opened Wrappers
  import opened Strs
  import opened Num
  import opened ModelObjects

  /** One `Elem`: an object to relax and its preference.  Each add creates a
      new entry, so equal pairs added twice are two entries. */
  datatype Entry = Entry(obj: ObjId, preference: Double)

  /** The four buckets, each in insertion order. */
  datatype Relaxations = Relaxations(rhs: seq<Entry>, rng: seq<Entry>, lb: seq<Entry>, ub: seq<Entry>)

  const Empty := Relaxations([], [], [], [])

  const OnlyRanges := "Only ranges are supported in WML feasopt."
  const MissingName := "Missing name for relaxing "
  const Header := "<CPLEXFeasopt infeasibilityFile='true' resultNames='true'>"
  const Footer := "</CPLEXFeasopt>"

  /** `GetSize`: the entries of all four buckets. */
  function Size(rx: Relaxations): nat {
    |rx.rhs| + |rx.rng| + |rx.lb| + |rx.ub|
  }

  /** `Add(IRange, p)`: a range given as a range always goes to `rng`. */
  function AddRange(rx: Relaxations, r: ObjId, p: Double): (r': Relaxations)
    ensures r'.rng == rx.rng + [Entry(r, p)]
    ensures r'.rhs == rx.rhs && r'.lb == rx.lb && r'.ub == rx.ub
    ensures Size(r') == Size(rx) + 1
  {
    rx.(rng := rx.rng + [Entry(r, p)])
  }

  /** Whether a range's bounds make it a one-sided (right-hand-side)
      constraint: a lower bound of -MaxValue or an upper bound of MaxValue. */
  predicate OneSided(lb: Double, ub: Double) {
    lb == MinusMaxValue || ub == MaxValue
  }

  /** `Add(IConstraint, p)`: one-sided ranges go to `rhs`, other ranges to
      `rng`, and anything but a range is refused. */
  function AddConstraint(rx: Relaxations, c: Constraint, p: Double): (r: Result<Relaxations>)
    ensures r.Ok? <==> c.shape.RangeShape?
    ensures r.Err? ==> r.msg == OnlyRanges
    ensures r.Ok? ==> Size(r.value) == Size(rx) + 1 && r.value.lb == rx.lb && r.value.ub == rx.ub
    ensures r.Ok? && OneSided(c.shape.lb, c.shape.ub) ==> r.value.rhs == rx.rhs + [Entry(c.id, p)] && r.value.rng == rx.rng
    ensures r.Ok? && !OneSided(c.shape.lb, c.shape.ub) ==> r.value.rng == rx.rng + [Entry(c.id, p)] && r.value.rhs == rx.rhs
  {
    match c.shape
    case RangeShape(lb, ub, _) =>
      if OneSided(lb, ub) then Ok(rx.(rhs := rx.rhs + [Entry(c.id, p)]))
      else Ok(AddRange(rx, c.id, p))
    case _ => Err(OnlyRanges)
  }

  /** `Add(IRange, lb, ub)` and `Add(INumVar, lb, ub)`: one entry in `lb`
      and one in `ub`. */
  function AddBounds(rx: Relaxations, a: ObjId, lbound: Double, ubound: Double): (r: Relaxations)
    ensures r.lb == rx.lb + [Entry(a, lbound)] && r.ub == rx.ub + [Entry(a, ubound)]
    ensures r.rhs == rx.rhs && r.rng == rx.rng
    ensures Size(r) == Size(rx) + 2
  {
    rx.(lb := rx.lb + [Entry(a, lbound)], ub := rx.ub + [Entry(a, ubound)])
  }

  /** The same pair added twice is counted twice. */
  lemma RepeatedAddCountsTwice(rx: Relaxations, r: ObjId, p: Double)
    ensures Size(AddRange(AddRange(rx, r, p), r, p)) == Size(rx) + 2
    ensures AddRange(AddRange(rx, r, p), r, p).rng == rx.rng + [Entry(r, p), Entry(r, p)]
  {
  }

  predicate Named(names: Names, es: seq<Entry>) {
    forall i :: 0 <= i < |es| ==> NameOf(names, es[i].obj).Some?
  }

  predicate AllNamed(names: Names, rx: Relaxations) {
    Named(names, rx.rhs) && Named(names, rx.rng) && Named(names, rx.lb) && Named(names, rx.ub)
  }

  function Line(name: string, p: Double): string {
    "<relax name='" + name + "' preference='" + Show(p) + "'/>"
  }

  /** The `<relax>` lines of a bucket; `Elem.GetName` fails on an object
      without a name. */
  function Lines(names: Names, es: seq<Entry>): (r: Result<string>)
    ensures r.Ok? <==> Named(names, es)
    ensures r.Err? ==>
              exists i :: 0 <= i < |es| && NameOf(names, es[i].obj).None? && r.msg == MissingName + Describe(es[i].obj)
    decreases |es|
  {
    if |es| == 0 then Ok("")
    else
      match NameOf(names, es[0].obj)
      case None => Err(MissingName + Describe(es[0].obj))
      case Some(n) =>
        var rest :- Lines(names, es[1..]);
        assert forall i :: 1 <= i < |es| ==> es[i] == es[1..][i - 1];
        Ok(Line(n, es[0].preference) + rest)
  }

  /** The lines of two bucket parts are the lines of each, in order. */
  lemma {:induction false} LinesAppend(names: Names, s: seq<Entry>, t: seq<Entry>)
    requires Named(names, s) && Named(names, t)
    ensures Named(names, s + t)
    ensures Lines(names, s + t) == Ok(Lines(names, s).value + Lines(names, t).value)
    decreases |s|
  {
    assert Named(names, s + t) by {
      forall i | 0 <= i < |s + t| ensures NameOf(names, (s + t)[i].obj).Some? {
        if i < |s| { assert (s + t)[i] == s[i]; } else { assert (s + t)[i] == t[i - |s|]; }
      }
    }
    if |s| > 0 {
      assert Named(names, s[1..]) by {
        forall i | 0 <= i < |s[1..]| ensures NameOf(names, s[1..][i].obj).Some? {
          assert s[1..][i] == s[i + 1];
        }
      }
      LinesAppend(names, s[1..], t);
      assert (s + t)[0] == s[0];
      assert (s + t)[1..] == s[1..] + t;
      var first := Line(NameOf(names, s[0].obj).value, s[0].preference);
      var ls, lt := Lines(names, s[1..]).value, Lines(names, t).value;
      assert Lines(names, s) == Ok(first + ls);
      assert Lines(names, s + t) == Ok(first + (ls + lt));
      assert first + (ls + lt) == (first + ls) + lt;
    } else {
      assert s + t == t;
      assert Lines(names, s) == Ok("");
      assert "" + Lines(names, t).value == Lines(names, t).value;
    }
  }

  function Open(tag: string): string { "<" + tag + ">" }
  function Close(tag: string): string { "</" + tag + ">" }

  /** `FillBuffer` for a non-empty bucket; an empty bucket is omitted. */
  function Group(names: Names, es: seq<Entry>, tag: string): (r: Result<string>)
    ensures |es| == 0 ==> r == Ok("")
    ensures r.Ok? <==> Named(names, es)
    ensures |es| > 0 && r.Ok? ==> r.value == Open(tag) + Lines(names, es).value + Close(tag)
  {
    if |es| == 0 then Ok("")
    else
      var ls :- Lines(names, es);
      Ok(Open(tag) + ls + Close(tag))
  }

  /** `MakeFile`: the header, the buckets rhs, rng, lb and ub, the footer.
      The document is returned as text; its UTF-8 encoding is left out. */
  function MakeFile(names: Names, rx: Relaxations): (r: Result<string>)
    ensures r.Ok? <==> AllNamed(names, rx)
    ensures r.Ok? ==> StartsWith(r.value, Header) && EndsWith(r.value, Footer)
  {
    var a :- Group(names, rx.rhs, "rhs");
    var b :- Group(names, rx.rng, "rng");
    var c :- Group(names, rx.lb, "lb");
    var d :- Group(names, rx.ub, "ub");
    var body := a + b + c + d;
    Framed(Header, body, Footer);
    Ok(Header + body + Footer)
  }

  /** With nothing to relax the document is the bare root element. */
  lemma EmptyFile(names: Names)
    ensures MakeFile(names, Empty) == Ok(Header + Footer)
  {
  }

  /** Adding a named range keeps the document well formed and adds exactly
      its `<relax>` line at the end of the `rng` group; the other groups are
      those of the relaxation it was added to. */
  lemma AddRangeAddsOneLine(names: Names, rx: Relaxations, r: ObjId, p: Double, n: string)
    requires AllNamed(names, rx) && NameOf(names, r) == Some(n)
    ensures MakeFile(names, AddRange(rx, r, p)).Ok?
    ensures Group(names, AddRange(rx, r, p).rng, "rng") ==
            Ok(Open("rng") + Lines(names, rx.rng).value + Line(n, p) + Close("rng"))
  {
    var one := [Entry(r, p)];
    assert Named(names, one);
    LinesAppend(names, rx.rng, one);
    assert Lines(names, one) == Ok(Line(n, p) + "") by {
      assert one[1..] == [];
    }
    assert Line(n, p) + "" == Line(n, p);
    var rx' := AddRange(rx, r, p);
    assert rx'.rng == rx.rng + one;
    var lr := Lines(names, rx.rng).value;
    assert Lines(names, rx'.rng) == Ok(lr + Line(n, p));
    assert Open("rng") + (lr + Line(n, p)) + Close("rng") == Open("rng") + lr + Line(n, p) + Close("rng");
  }
}
