/** `RecursiveNamespace` (decode/utils/types.py): a namespace built from
    keyword arguments in which dict values become nested namespaces, list and
    tuple values become lists whose dict elements become namespaces, and every
    other value is stored as given. `to_dict` turns directly nested namespaces
    back into dicts but leaves list elements alone. */
module RecursiveNamespaces {
  import opened Wrappers

  /** The Python values a namespace is built from or holds. `Atom` stands for
      any value that is none of the other kinds (a string, a number, None). */
  datatype Value =
    | Atom(repr: string)
    | Dict(entries: seq<Field>)
    | List(items: seq<Value>)
    | Tuple(items: seq<Value>)
    | Namespace(fields: seq<Field>)

  /** One keyword argument, dict entry or namespace attribute. */
  datatype Field = Field(key: string, val: Value)

  function Keys(fs: seq<Field>): (ks: seq<string>)
    ensures |ks| == |fs|
    ensures forall i :: 0 <= i < |fs| ==> ks[i] == fs[i].key
  {
    seq(|fs|, i requires 0 <= i < |fs| => fs[i].key)
  }

  // ---------------------------------------------------------------------------
  // Construction

  /** `__init__(**kwargs)`: every keyword becomes an attribute, in keyword
      order, holding the converted value. */
  function FromKwargs(kwargs: seq<Field>): (ns: seq<Field>)
    decreases kwargs, 1
  {
    seq(|kwargs|, i requires 0 <= i < |kwargs| => Field(kwargs[i].key, Convert(kwargs[i].val)))
  }

  /** The value `__init__` stores for one keyword. */
  function Convert(v: Value): Value
    decreases v, 2
  {
    match v
    case Dict(es) => Namespace(FromKwargs(es))
    case List(xs) => List(MapEntries(xs))
    case Tuple(xs) => List(MapEntries(xs))
    case _ => v
  }

  /** `list(map(map_entry, val))`. */
  function MapEntries(xs: seq<Value>): (ys: seq<Value>)
    decreases xs, 1
  {
    seq(|xs|, i requires 0 <= i < |xs| => MapEntry(xs[i]))
  }

  /** `map_entry`: a dict becomes a namespace, anything else is kept. */
  function MapEntry(e: Value): Value
    decreases e, 0
  {
    match e
    case Dict(es) => Namespace(FromKwargs(es))
    case _ => e
  }

  // ---------------------------------------------------------------------------
  // Access

  /** `__getitem__`: the stored value, TypeError when it is a nested
      namespace; an unknown name raises AttributeError from `getattr`. */
  function GetItem(ns: seq<Field>, item: string): (r: Result<Value>)
    ensures r == Err(AttributeError) <==> item !in Keys(ns)
    ensures r.Err? ==> r == Err(AttributeError) || r == Err(TypeError)
    ensures r.Ok? ==> !r.value.Namespace?
  {
    if ns == [] then Err(AttributeError)
    else if ns[0].key == item then
      (if ns[0].val.Namespace? then Err(TypeError) else Ok(ns[0].val))
    else
      assert Keys(ns) == [ns[0].key] + Keys(ns[1..]);
      GetItem(ns[1..], item)
  }

  /** `to_dict`: a copy of the attributes in which every directly held
      namespace is turned back into a dict, recursively. */
  function ToDict(ns: seq<Field>): (d: seq<Field>)
    ensures Keys(d) == Keys(ns)
    decreases ns
  {
    seq(|ns|, i requires 0 <= i < |ns| => Field(ns[i].key, Unconvert(ns[i].val)))
  }

  function Unconvert(v: Value): Value
    decreases v
  {
    match v
    case Namespace(fs) => Dict(ToDict(fs))
    case _ => v
  }

  // ---------------------------------------------------------------------------
  // Properties

  /** The namespace has exactly the constructor's keys, in the same order
      (`keys()`). */
  lemma KeysKept(kwargs: seq<Field>)
    ensures Keys(FromKwargs(kwargs)) == Keys(kwargs)
    ensures Keys(ToDict(FromKwargs(kwargs))) == Keys(kwargs)
  {
    assert Keys(FromKwargs(kwargs)) == Keys(kwargs);
  }

  /** What `__getitem__` gives for the first keyword named `item`: TypeError
      exactly when its value was a dict (or a namespace), the value itself
      when it was neither a dict, a list, a tuple nor a namespace. */
  lemma GetItemOfKwarg(kwargs: seq<Field>, i: nat)
    requires i < |kwargs| && forall j :: 0 <= j < i ==> kwargs[j].key != kwargs[i].key
    ensures GetItem(FromKwargs(kwargs), kwargs[i].key).Err? <==> kwargs[i].val.Dict? || kwargs[i].val.Namespace?
    ensures kwargs[i].val.Atom? ==> GetItem(FromKwargs(kwargs), kwargs[i].key) == Ok(kwargs[i].val)
  {
    var ns := FromKwargs(kwargs);
    assert ns[i].key == kwargs[i].key && ns[i].val == Convert(kwargs[i].val);
    assert forall j :: 0 <= j < i ==> ns[j].key == kwargs[j].key;
    FirstMatch(ns, kwargs[i].key, i);
  }

  /** `__getitem__` finds the first attribute with the given name: TypeError
      when it holds a namespace, its value otherwise. */
  lemma {:induction false} FirstMatch(ns: seq<Field>, item: string, i: nat)
    requires i < |ns| && ns[i].key == item && forall j :: 0 <= j < i ==> ns[j].key != item
    ensures GetItem(ns, item) == if ns[i].val.Namespace? then Err(TypeError) else Ok(ns[i].val)
  {
    if i > 0 {
      assert ns[0].key != item;
      FirstMatch(ns[1..], item, i - 1);
    }
  }

  /** A value that survives the trip through a namespace and back: dicts
      whose values survive, lists without dict elements, and atoms. Tuples
      come back as lists, namespaces come back as dicts, and dicts inside
      lists stay namespaces. */
  predicate Plain(v: Value)
    decreases v
  {
    match v
    case Atom(_) => true
    case Dict(es) => forall i :: 0 <= i < |es| ==> Plain(es[i].val)
    case List(xs) => forall i :: 0 <= i < |xs| ==> !xs[i].Dict?
    case Tuple(_) => false
    case Namespace(_) => false
  }

  /** The dict -> namespace -> dict round trip is the identity exactly for
      keyword arguments whose values are all plain. */
  lemma {:induction false} RoundTrip(kwargs: seq<Field>)
    ensures ToDict(FromKwargs(kwargs)) == kwargs <==> forall i :: 0 <= i < |kwargs| ==> Plain(kwargs[i].val)
    decreases kwargs, 1
  {
    var d := ToDict(FromKwargs(kwargs));
    forall i | 0 <= i < |kwargs|
      ensures d[i] == kwargs[i] <==> Plain(kwargs[i].val)
    {
      ValueRoundTrip(kwargs[i].val);
    }
    if forall i :: 0 <= i < |kwargs| ==> Plain(kwargs[i].val) {
      assert d == kwargs;
    } else {
      var i :| 0 <= i < |kwargs| && !Plain(kwargs[i].val);
      assert d[i] != kwargs[i];
    }
  }

  lemma {:induction false} ValueRoundTrip(v: Value)
    ensures Unconvert(Convert(v)) == v <==> Plain(v)
    decreases v, 0
  {
    match v
    case Atom(_) =>
    case Dict(es) =>
      RoundTrip(es);
    case List(xs) =>
      var ys := MapEntries(xs);
      assert forall i :: 0 <= i < |xs| ==> ys[i] == MapEntry(xs[i]);
      if forall i :: 0 <= i < |xs| ==> !xs[i].Dict? {
        assert forall i :: 0 <= i < |xs| ==> ys[i] == xs[i];
        assert ys == xs;
      } else {
        var i :| 0 <= i < |xs| && xs[i].Dict?;
        assert ys[i].Namespace?;
      }
    case Tuple(xs) =>
    case Namespace(_) =>
  }

  /** A namespace attribute as the constructor leaves it: never a dict or a
      tuple, lists hold no dicts, and nested namespaces are canonical too. */
  predicate Canonical(v: Value)
    decreases v
  {
    match v
    case Atom(_) => true
    case Dict(_) => false
    case List(xs) => forall i :: 0 <= i < |xs| ==> !xs[i].Dict?
    case Tuple(_) => false
    case Namespace(fs) => forall i :: 0 <= i < |fs| ==> Canonical(fs[i].val)
  }

  /** The reverse trip: rebuilding a namespace from its `to_dict` gives the
      namespace back whenever its attributes are canonical, as every
      namespace built from canonical keyword values is. */
  lemma {:induction false} RebuildFromDict(ns: seq<Field>)
    requires forall i :: 0 <= i < |ns| ==> Canonical(ns[i].val)
    ensures FromKwargs(ToDict(ns)) == ns
    decreases ns
  {
    var r := FromKwargs(ToDict(ns));
    forall i | 0 <= i < |ns|
      ensures r[i] == ns[i]
    {
      var v := ns[i].val;
      match v
      case Namespace(fs) =>
        RebuildFromDict(fs);
      case List(xs) =>
        assert MapEntries(xs) == xs;
      case _ =>
    }
  }

  /** A keyword value whose namespaces, wherever dicts lead to them, are
      canonical (every value a caller can build from dicts, lists and atoms). */
  predicate Admissible(v: Value)
    decreases v
  {
    match v
    case Dict(es) => forall i :: 0 <= i < |es| ==> Admissible(es[i].val)
    case Namespace(_) => Canonical(v)
    case _ => true
  }

  /** The constructor leaves only canonical attributes. */
  lemma {:induction false} FromKwargsCanonical(kwargs: seq<Field>)
    requires forall i :: 0 <= i < |kwargs| ==> Admissible(kwargs[i].val)
    ensures forall i :: 0 <= i < |FromKwargs(kwargs)| ==> Canonical(FromKwargs(kwargs)[i].val)
    decreases kwargs, 1
  {
    forall i | 0 <= i < |kwargs|
      ensures Canonical(FromKwargs(kwargs)[i].val)
    {
      ConvertCanonical(kwargs[i].val);
    }
  }

  lemma {:induction false} ConvertCanonical(v: Value)
    requires Admissible(v)
    ensures Canonical(Convert(v))
    decreases v, 0
  {
    match v
    case Dict(es) =>
      FromKwargsCanonical(es);
    case List(xs) =>
      assert forall i :: 0 <= i < |xs| ==> MapEntries(xs)[i] == MapEntry(xs[i]);
    case Tuple(xs) =>
      assert forall i :: 0 <= i < |xs| ==> MapEntries(xs)[i] == MapEntry(xs[i]);
    case _ =>
  }

  /** A dict inside a list does not come back: `{'a': [{'b': 1}]}` turns into
      `{'a': [namespace(b=1)]}`, and a tuple comes back as a list. */
  lemma AsymmetryExamples()
    ensures var kw := [Field("a", List([Dict([Field("b", Atom("1"))])]))];
      ToDict(FromKwargs(kw)) == [Field("a", List([Namespace([Field("b", Atom("1"))])]))] != kw
    ensures var kw := [Field("t", Tuple([Atom("1")]))];
      ToDict(FromKwargs(kw)) == [Field("t", List([Atom("1")]))] != kw
  {
    var inner := [Field("b", Atom("1"))];
    assert FromKwargs(inner)[0] == Field("b", Atom("1"));
    assert FromKwargs(inner) == inner;
    assert MapEntries([Dict(inner)])[0] == Namespace(inner);
    assert MapEntries([Dict(inner)]) == [Namespace(inner)];
    assert MapEntries([Atom("1")])[0] == Atom("1");
    assert MapEntries([Atom("1")]) == [Atom("1")];
  }
}
