/** Generation of pip requirement lists and conda environments from the
    dependency description (decode/utils/dependency.py): insertion-ordered
    dicts of package names, renames applied per dependency level, and the
    yaml-style `=` to pip-style `==` conversion. */
module Dependencies {
  import opened Wrappers

  /** A dict key or value that is a string or Python's None. */
  type Name = Option<string>

  predicate NoDup<T(==)>(s: seq<T>) {
    forall i, j :: 0 <= i < j < |s| ==> s[i] != s[j]
  }

  // ---------------------------------------------------------------------------
  // Ordered key sequences

  /** The keys after inserting k: unchanged when present, k appended otherwise. */
  function AddKey<K(==)>(ks: seq<K>, k: K): seq<K> {
    if k in ks then ks else ks + [k]
  }

  /** The keys after inserting each of `more` in turn. */
  function AddKeys<K(==)>(ks: seq<K>, more: seq<K>): seq<K> {
    if more == [] then ks else AddKey(AddKeys(ks, more[..|more| - 1]), more[|more| - 1])
  }

  /** The distinct elements of xs in order of first occurrence. */
  function FirstOccurrences<K(==)>(xs: seq<K>): seq<K> {
    AddKeys([], xs)
  }

  /** The keys without k. */
  function RemoveKey<K(==)>(ks: seq<K>, k: K): seq<K> {
    if ks == [] then [] else (if ks[0] == k then [] else [ks[0]]) + RemoveKey(ks[1..], k)
  }

  lemma {:induction false} AddKeysFacts<K>(ks: seq<K>, more: seq<K>)
    ensures forall x :: x in AddKeys(ks, more) <==> x in ks || x in more
    ensures NoDup(ks) ==> NoDup(AddKeys(ks, more))
  {
    if more != [] {
      var p := more[..|more| - 1];
      AddKeysFacts(ks, p);
      assert more == p + [more[|more| - 1]];
    }
  }

  lemma {:induction false} AddKeysAppend<K>(ks: seq<K>, a: seq<K>, b: seq<K>)
    ensures AddKeys(AddKeys(ks, a), b) == AddKeys(ks, a + b)
  {
    if b != [] {
      AddKeysAppend(ks, a, b[..|b| - 1]);
      assert (a + b)[..|a + b| - 1] == a + b[..|b| - 1];
    } else {
      assert a + b == a;
    }
  }

  /** First occurrences: every element once, nothing else, and an input
      without repetitions is returned as it is. */
  lemma FirstOccurrencesFacts<K>(xs: seq<K>)
    ensures forall x :: x in FirstOccurrences(xs) <==> x in xs
    ensures NoDup(FirstOccurrences(xs))
    ensures NoDup(xs) ==> FirstOccurrences(xs) == xs
  {
    AddKeysFacts([], xs);
    if NoDup(xs) {
      NoDupFirstOccurrences(xs);
    }
  }

  lemma {:induction false} NoDupFirstOccurrences<K>(xs: seq<K>)
    requires NoDup(xs)
    ensures AddKeys([], xs) == xs
  {
    if xs != [] {
      var p := xs[..|xs| - 1];
      NoDupFirstOccurrences(p);
      assert xs[|xs| - 1] !in p;
      assert p + [xs[|xs| - 1]] == xs;
    }
  }

  /** Inserting the first occurrences of m inserts the same keys as m. */
  lemma {:induction false} AddKeysFirstOccurrences<K>(ks: seq<K>, m: seq<K>)
    ensures AddKeys(ks, FirstOccurrences(m)) == AddKeys(ks, m)
  {
    if m != [] {
      var p := m[..|m| - 1];
      var x := m[|m| - 1];
      AddKeysFirstOccurrences(ks, p);
      AddKeysFacts([], p);
      AddKeysFacts(ks, p);
      if x !in p {
        assert FirstOccurrences(m) == FirstOccurrences(p) + [x];
        assert (FirstOccurrences(p) + [x])[..|FirstOccurrences(p)|] == FirstOccurrences(p);
      }
    }
  }

  lemma {:induction false} RemoveKeyFacts<K>(ks: seq<K>, k: K)
    ensures forall x :: x in RemoveKey(ks, k) <==> x in ks && x != k
    ensures NoDup(ks) ==> NoDup(RemoveKey(ks, k))
    ensures ks != [] && ks[0] != k ==> RemoveKey(ks, k) != [] && RemoveKey(ks, k)[0] == ks[0]
  {
    if ks != [] {
      RemoveKeyFacts(ks[1..], k);
      assert ks == [ks[0]] + ks[1..];
      if NoDup(ks) {
        assert NoDup(ks[1..]) && ks[0] !in ks[1..];
      }
    }
  }

  // ---------------------------------------------------------------------------
  // Insertion-ordered dicts

  /** A Python dict: its keys in insertion order and the value of each. */
  datatype Dict<K, V> = Dict(keys: seq<K>, vals: map<K, V>)

  /** Every key once, and exactly the keys have values. */
  predicate Valid<K(==), V>(d: Dict<K, V>) {
    && NoDup(d.keys)
    && (forall k :: k in d.vals ==> k in d.keys)
    && (forall k :: k in d.keys ==> k in d.vals)
  }

  function Empty<K, V>(): Dict<K, V> {
    Dict([], map[])
  }

  /** `d[k]`, None when k is missing. */
  function Get<K, V>(d: Dict<K, V>, k: K): Option<V> {
    if k in d.vals then Some(d.vals[k]) else None
  }

  /** `d[k] = v`: an existing key keeps its place, a new key is appended. */
  function Put<K, V>(d: Dict<K, V>, k: K, v: V): Dict<K, V> {
    Dict(AddKey(d.keys, k), d.vals[k := v])
  }

  /** `d.pop(k)`'s effect on d. */
  function Remove<K, V>(d: Dict<K, V>, k: K): Dict<K, V> {
    Dict(RemoveKey(d.keys, k), d.vals - {k})
  }

  /** `d.update(e)`: the entries of e put in e's order. */
  function PutAll<K, V>(d: Dict<K, V>, e: Dict<K, V>): Dict<K, V> {
    PutKeys(d, e.keys, e.vals)
  }

  function PutKeys<K, V>(d: Dict<K, V>, ks: seq<K>, vals: map<K, V>): Dict<K, V> {
    if ks == [] then d
    else
      var prev := PutKeys(d, ks[..|ks| - 1], vals);
      var k := ks[|ks| - 1];
      if k in vals then Put(prev, k, vals[k]) else prev
  }

  /** `dict.fromkeys(ks)`, every value v. */
  function FromKeys<K, V>(ks: seq<K>, v: V): Dict<K, V> {
    if ks == [] then Dict([], map[]) else Put(FromKeys(ks[..|ks| - 1], v), ks[|ks| - 1], v)
  }

  lemma PutValid<K, V>(d: Dict<K, V>, k: K, v: V)
    requires Valid(d)
    ensures Valid(Put(d, k, v))
  {
  }

  lemma RemoveValid<K, V>(d: Dict<K, V>, k: K)
    requires Valid(d)
    ensures Valid(Remove(d, k))
  {
    RemoveKeyFacts(d.keys, k);
    var r := Remove(d, k);
    assert NoDup(r.keys);
    assert forall x :: x in r.vals ==> x in r.keys;
    assert forall x :: x in r.keys ==> x in r.vals;
  }

  /** `update` inserts the new keys in order and takes e's values. */
  lemma PutAllFacts<K, V>(d: Dict<K, V>, e: Dict<K, V>)
    requires Valid(e)
    ensures PutAll(d, e).keys == AddKeys(d.keys, e.keys)
    ensures forall k :: Get(PutAll(d, e), k) == if k in e.vals then Some(e.vals[k]) else Get(d, k)
    ensures Valid(d) ==> Valid(PutAll(d, e))
  {
    PutKeysFacts(d, e.keys, e.vals);
  }

  lemma {:induction false} PutKeysFacts<K, V>(d: Dict<K, V>, ks: seq<K>, vals: map<K, V>)
    requires forall i :: 0 <= i < |ks| ==> ks[i] in vals
    ensures PutKeys(d, ks, vals).keys == AddKeys(d.keys, ks)
    ensures forall k :: Get(PutKeys(d, ks, vals), k) == if k in ks then Some(vals[k]) else Get(d, k)
    ensures Valid(d) ==> Valid(PutKeys(d, ks, vals))
  {
    if ks != [] {
      var p := ks[..|ks| - 1];
      PutKeysFacts(d, p, vals);
      assert ks == p + [ks[|ks| - 1]];
      if Valid(d) {
        PutValid(PutKeys(d, p, vals), ks[|ks| - 1], vals[ks[|ks| - 1]]);
      }
    }
  }

  /** `dict.fromkeys` keeps the first occurrence of every key. */
  lemma {:induction false} FromKeysFacts<K, V>(ks: seq<K>, v: V)
    ensures FromKeys(ks, v).keys == FirstOccurrences(ks)
    ensures forall k :: Get(FromKeys(ks, v), k) == if k in ks then Some(v) else None
    ensures Valid(FromKeys(ks, v))
  {
    if ks != [] {
      var p := ks[..|ks| - 1];
      FromKeysFacts(p, v);
      assert ks == p + [ks[|ks| - 1]];
      PutValid(FromKeys(p, v), ks[|ks| - 1], v);
    }
  }

  // ---------------------------------------------------------------------------
  // convert_mixed_list

  /** An element of a yaml list: a plain package name or a dict. */
  datatype Item = Plain(name: string) | Mapping(entries: Dict<string, Name>)

  function PlainNames(mix: seq<Item>): seq<string> {
    if mix == [] then []
    else PlainNames(mix[..|mix| - 1]) + (if mix[|mix| - 1].Plain? then [mix[|mix| - 1].name] else [])
  }

  function MappingKeys(mix: seq<Item>): seq<string> {
    if mix == [] then []
    else MappingKeys(mix[..|mix| - 1]) + (if mix[|mix| - 1].Mapping? then mix[|mix| - 1].entries.keys else [])
  }

  /** The value the last dict of mix that has k gives it. */
  function LastMapped(mix: seq<Item>, k: string): Option<Name> {
    if mix == [] then None
    else
      var m := mix[|mix| - 1];
      if m.Mapping? && k in m.entries.vals then Some(m.entries.vals[k])
      else LastMapped(mix[..|mix| - 1], k)
  }

  /** The dicts of mix merged in list order onto d. */
  function MergeMappings(d: Dict<string, Name>, mix: seq<Item>): Dict<string, Name> {
    if mix == [] then d
    else
      var prev := MergeMappings(d, mix[..|mix| - 1]);
      if mix[|mix| - 1].Mapping? then PutAll(prev, mix[|mix| - 1].entries) else prev
  }

  predicate ValidItems(mix: seq<Item>) {
    forall i :: 0 <= i < |mix| && mix[i].Mapping? ==> Valid(mix[i].entries)
  }

  lemma {:induction false} MergeMappingsFacts(d: Dict<string, Name>, mix: seq<Item>)
    requires ValidItems(mix)
    ensures MergeMappings(d, mix).keys == AddKeys(d.keys, MappingKeys(mix))
    ensures forall k :: Get(MergeMappings(d, mix), k) == if LastMapped(mix, k).Some? then LastMapped(mix, k) else Get(d, k)
    ensures Valid(d) ==> Valid(MergeMappings(d, mix))
  {
    if mix != [] {
      var p := mix[..|mix| - 1];
      var m := mix[|mix| - 1];
      MergeMappingsFacts(d, p);
      if m.Mapping? {
        PutAllFacts(MergeMappings(d, p), m.entries);
        AddKeysAppend(d.keys, MappingKeys(p), m.entries.keys);
      } else {
        assert MappingKeys(mix) == MappingKeys(p);
      }
    }
  }

  /** `convert_mixed_list`: plain names become keys with value None, then the
      dicts are merged in list order, so a later dict overrides an earlier one
      and any dict overrides a plain name. Keys appear in order of first
      mention, plain names first. */
  method ConvertMixedList(mix: seq<Item>) returns (d: Dict<string, Name>)
    requires ValidItems(mix)
    ensures Valid(d)
    ensures d.keys == FirstOccurrences(PlainNames(mix) + MappingKeys(mix))
    ensures forall k :: Get(d, k) == (if LastMapped(mix, k).Some? then LastMapped(mix, k)
                                      else if k in PlainNames(mix) then Some(None) else None)
  {
    var start := FromKeys(PlainNames(mix), None);
    d := start;
    var i := 0;
    while i < |mix|
      invariant 0 <= i <= |mix|
      invariant d == MergeMappings(start, mix[..i])
    {
      assert mix[..i + 1][..i] == mix[..i];
      if mix[i].Mapping? {
        d := PutAll(d, mix[i].entries);
      }
      i := i + 1;
    }
    assert mix[..i] == mix;
    FromKeysFacts<string, Name>(PlainNames(mix), None);
    MergeMappingsFacts(start, mix);
    AddKeysAppend([], PlainNames(mix), MappingKeys(mix));
  }

  // ---------------------------------------------------------------------------
  // convert_to_spec

  /** Every '=' replaced by "==" (`str.replace('=', '==')`). */
  function Doubled(s: string): string {
    if s == [] then [] else (if s[0] == '=' then "==" else [s[0]]) + Doubled(s[1..])
  }

  /** Every "==" collapsed back to '='. */
  function Halved(s: string): string {
    if s == [] then []
    else if |s| >= 2 && s[0] == '=' && s[1] == '=' then "=" + Halved(s[2..])
    else [s[0]] + Halved(s[1..])
  }

  function Count(s: string, c: char): nat {
    if s == [] then 0 else (if s[0] == c then 1 else 0) + Count(s[1..], c)
  }

  /** `convert_to_spec`: the yaml pin `pkg=1.0` becomes the pip pin
      `pkg==1.0`; a name without '=' or with a comparison is left alone. */
  function ConvertToSpec(package: string): (r: string)
    ensures '=' !in package || '<' in package || '>' in package ==> r == package
  {
    if '=' !in package || '<' in package || '>' in package then package
    else Doubled(package)
  }

  /** The conversion doubles each '=' and nothing else: it is undone by
      collapsing "==", and the length grows by the number of '='. */
  lemma {:induction false} DoubledFacts(s: string)
    ensures Halved(Doubled(s)) == s
    ensures |Doubled(s)| == |s| + Count(s, '=')
  {
    if s != [] {
      DoubledFacts(s[1..]);
      if s[0] == '=' {
        assert Doubled(s) == "==" + Doubled(s[1..]);
        assert Doubled(s)[2..] == Doubled(s[1..]);
      } else {
        assert Doubled(s) == [s[0]] + Doubled(s[1..]);
        assert Doubled(s)[1..] == Doubled(s[1..]);
      }
    }
  }

  lemma ConvertToSpecRoundTrip(package: string)
    ensures ('=' in package && '<' !in package && '>' !in package) ==>
      Halved(ConvertToSpec(package)) == package && |ConvertToSpec(package)| == |package| + Count(package, '=')
  {
    DoubledFacts(package);
  }

  // ---------------------------------------------------------------------------
  // add_update_package
  /** The `level` argument: a single name (a Python str, where `k in level`
      is a substring test) or a tuple of names (a membership test). */
  datatype Level = Single(name: string) | Many(names: seq<string>)

  /** `t in s` for Python strings. */
  predicate Occurs(t: string, s: string) {
    (|t| <= |s| && s[..|t|] == t) || (s != [] && Occurs(t, s[1..]))
  }

  predicate InLevel(k: string, level: Level) {
    match level
    case Single(s) => Occurs(k, s)
    case Many(ns) => k in ns
  }

  /** The renames of one level: package name to new name, or to None. */
  type Renames = Dict<string, Name>

  type Deps = Dict<Name, Name>

  /** `deps[v] = deps.pop(k)` for a present k, `deps[k] = None` otherwise. */
  function Rename(d: Deps, k: string, v: Name): Deps {
    match Get(d, Some(k))
    case Some(x) => Put(Remove(d, Some(k)), v, x)
    case None => Put(d, Some(k), None)
  }

  /** The renames of n applied in n's order. */
  function RenameAll(d: Deps, n: Renames): Deps {
    RenameKeys(d, n.keys, n.vals)
  }

  function RenameKeys(d: Deps, ks: seq<string>, vals: map<string, Name>): Deps {
    if ks == [] then d
    else
      var prev := RenameKeys(d, ks[..|ks| - 1], vals);
      var k := ks[|ks| - 1];
      if k in vals then Rename(prev, k, vals[k]) else prev
  }

  /** The dict `add_update_package` leaves: the renames of every level of
      `update` that is in `level`, in the order of `update`. */
  function UpdatePackages(d: Deps, update: Dict<string, Renames>, level: Level): Deps {
    UpdateLevels(d, update.keys, update.vals, level)
  }

  function UpdateLevels(d: Deps, ls: seq<string>, vals: map<string, Renames>, level: Level): Deps {
    if ls == [] then d
    else
      var prev := UpdateLevels(d, ls[..|ls| - 1], vals, level);
      var l := ls[|ls| - 1];
      if l in vals && InLevel(l, level) then RenameAll(prev, vals[l]) else prev
  }

  /** A dict that `add_update_package` mutates in place. */
  class DepsDict {
    var entries: Deps

    constructor(es: Deps)
      ensures entries == es
    {
      entries := es;
    }

    predicate Contains(k: Name)
      reads this
    {
      k in entries.vals
    }

    /** `d.pop(k)` for a present key. */
    method Pop(k: Name) returns (v: Name)
      requires Contains(k)
      modifies this
      ensures Some(v) == Get(old(entries), k)
      ensures entries == Remove(old(entries), k)
    {
      v := entries.vals[k];
      entries := Remove(entries, k);
    }

    /** `d[k] = v`. */
    method SetItem(k: Name, v: Name)
      modifies this
      ensures entries == Put(old(entries), k, v)
    {
      entries := Put(entries, k, v);
    }
  }

  /** `add_update_package`: for every level of `update` that is in `level`,
      each listed package is renamed (removed and put again under its new
      name, keeping its value) when present and added with value None when
      missing. The dict is changed in place and returned. */
  method AddUpdatePackage(deps: DepsDict, update: Dict<string, Renames>, level: Level) returns (r: DepsDict)
    requires Valid(update) && forall l :: l in update.vals ==> Valid(update.vals[l])
    modifies deps
    ensures r == deps
    ensures deps.entries == UpdatePackages(old(deps.entries), update, level)
  {
    var i := 0;
    while i < |update.keys|
      invariant 0 <= i <= |update.keys|
      invariant deps.entries == UpdateLevels(old(deps.entries), update.keys[..i], update.vals, level)
    {
      assert update.keys[..i + 1][..i] == update.keys[..i];
      var l := update.keys[i];
      if InLevel(l, level) {
        UpdateLevel(deps, update.vals[l]);
      }
      i := i + 1;
    }
    assert update.keys[..i] == update.keys;
    r := deps;
  }

  /** The inner loop of `add_update_package`: the renames of one level. */
  method UpdateLevel(deps: DepsDict, n: Renames)
    requires Valid(n)
    modifies deps
    ensures deps.entries == RenameAll(old(deps.entries), n)
  {
    var j := 0;
    while j < |n.keys|
      invariant 0 <= j <= |n.keys|
      invariant deps.entries == RenameKeys(old(deps.entries), n.keys[..j], n.vals)
    {
      assert n.keys[..j + 1][..j] == n.keys[..j];
      var k := n.keys[j];
      var v := n.vals[k];
      if deps.Contains(Some(k)) {
        var x := deps.Pop(Some(k));
        deps.SetItem(v, x);
      } else {
        deps.SetItem(Some(k), None);
      }
      j := j + 1;
    }
    assert n.keys[..j] == n.keys;
  }

  /** A present package is moved to the end under its new name, keeping its
      value, unless the new name is already taken, in which case that entry
      takes the value in place; the old name is gone. */
  lemma RenamePresent(d: Deps, k: string, v: Name)
    requires Valid(d) && Some(k) in d.vals
    ensures v !in RemoveKey(d.keys, Some(k)) ==> Rename(d, k, v).keys == RemoveKey(d.keys, Some(k)) + [v]
    ensures v in RemoveKey(d.keys, Some(k)) ==> Rename(d, k, v).keys == RemoveKey(d.keys, Some(k))
    ensures Some(k) != v ==> Some(k) !in Rename(d, k, v).keys
    ensures Get(Rename(d, k, v), v) == Get(d, Some(k))
  {
    RemoveKeyFacts(d.keys, Some(k));
  }

  /** A missing package is appended with value None. */
  lemma RenameMissing(d: Deps, k: string, v: Name)
    requires Valid(d) && Some(k) !in d.keys
    ensures Rename(d, k, v).keys == d.keys + [Some(k)]
    ensures Get(Rename(d, k, v), Some(k)) == Some(None)
  {
  }

  lemma RenameValid(d: Deps, k: string, v: Name)
    requires Valid(d)
    ensures Valid(Rename(d, k, v))
  {
    if Some(k) in d.vals {
      RemoveValid(d, Some(k));
      PutValid(Remove(d, Some(k)), v, d.vals[Some(k)]);
    } else {
      PutValid(d, Some(k), None);
    }
  }

  lemma {:induction false} RenameKeysValid(d: Deps, ks: seq<string>, vals: map<string, Name>)
    requires Valid(d)
    ensures Valid(RenameKeys(d, ks, vals))
  {
    if ks != [] {
      RenameKeysValid(d, ks[..|ks| - 1], vals);
      var k := ks[|ks| - 1];
      if k in vals {
        RenameValid(RenameKeys(d, ks[..|ks| - 1], vals), k, vals[k]);
      }
    }
  }

  /** `add_update_package` keeps the dict well formed: every key once. */
  lemma {:induction false} UpdateLevelsValid(d: Deps, ls: seq<string>, vals: map<string, Renames>, level: Level)
    requires Valid(d)
    ensures Valid(UpdateLevels(d, ls, vals, level))
  {
    if ls != [] {
      UpdateLevelsValid(d, ls[..|ls| - 1], vals, level);
      var l := ls[|ls| - 1];
      if l in vals && InLevel(l, level) {
        RenameKeysValid(UpdateLevels(d, ls[..|ls| - 1], vals, level), vals[l].keys, vals[l].vals);
      }
    }
  }

  /** Levels outside `level` are ignored. */
  lemma {:induction false} InactiveLevelsIgnored(d: Deps, ls: seq<string>, vals: map<string, Renames>, level: Level)
    requires forall i :: 0 <= i < |ls| ==> !InLevel(ls[i], level)
    ensures UpdateLevels(d, ls, vals, level) == d
  {
    if ls != [] {
      InactiveLevelsIgnored(d, ls[..|ls| - 1], vals, level);
    }
  }

  /** With a str level the membership test is a substring test. */
  lemma LevelStringMembership()
    ensures InLevel("dev", Single("dev")) && !InLevel("run", Single("dev")) && !InLevel("docs", Single("dev"))
    ensures InLevel("docs", Single("docs")) && !InLevel("dev", Single("docs"))
    ensures InLevel("d", Single("dev"))
  {
    assert "dev"[..3] == "dev";
    assert "docs"[..4] == "docs";
    assert "dev"[..1] == "d";
    assert "dev"[..3] != "run" && "dev"[1..] == "ev";
    TooLongNeverOccurs("run", "ev");
    TooLongNeverOccurs("docs", "dev");
    assert "docs"[..3] == "doc" != "dev";
    assert "docs"[1..] == "ocs";
    assert "ocs"[..3] == "ocs" != "dev";
    assert "ocs"[1..] == "cs";
    TooLongNeverOccurs("dev", "cs");
  }

  lemma {:induction false} TooLongNeverOccurs(t: string, s: string)
    requires |t| > |s|
    ensures !Occurs(t, s)
  {
    if s != [] {
      TooLongNeverOccurs(t, s[1..]);
    }
  }

  // ---------------------------------------------------------------------------
  // conda, conda_meta, pip

  /** A `level` given as a str is treated as the one-element tuple. */
  function Levels(level: Level): seq<string> {
    match level
    case Single(s) => [s]
    case Many(ns) => ns
  }

  /** The packages of the chosen levels, run first, then dev, then docs. */
  function Chosen(run: seq<string>, dev: seq<string>, docs: seq<string>, levels: seq<string>): seq<string> {
    run + (if "dev" in levels then dev else []) + (if "docs" in levels then docs else [])
  }

  function CondaDeps(run: seq<string>, dev: seq<string>, docs: seq<string>, levels: seq<string>): Dict<string, Name> {
    var d0 := FromKeys(run, None);
    var d1 := if "dev" in levels then PutAll(d0, FromKeys(dev, None)) else d0;
    if "docs" in levels then PutAll(d1, FromKeys(docs, None)) else d1
  }

  function CondaName(levels: seq<string>): string {
    "decode" + (if "dev" in levels then "_dev" else "") + (if "docs" in levels then "_docs" else "")
  }

  datatype CondaOut =
    | SpecList(specs: seq<string>)
    | Environment(name: string, channels: seq<string>, dependencies: seq<string>)
    | NoOutput

  function MapSpec(ps: seq<string>): (r: seq<string>)
    ensures |r| == |ps| && forall i :: 0 <= i < |ps| ==> r[i] == ConvertToSpec(ps[i])
  {
    seq(|ps|, i requires 0 <= i < |ps| => ConvertToSpec(ps[i]))
  }

  lemma CondaDepsKeys(run: seq<string>, dev: seq<string>, docs: seq<string>, levels: seq<string>)
    ensures CondaDeps(run, dev, docs, levels).keys == FirstOccurrences(Chosen(run, dev, docs, levels))
  {
    var d0 := FromKeys<string, Name>(run, None);
    FromKeysFacts<string, Name>(run, None);
    var d1 := if "dev" in levels then PutAll(d0, FromKeys(dev, None)) else d0;
    var a := run + (if "dev" in levels then dev else []);
    if "dev" in levels {
      UpdateFromKeys(d0, run, dev);
    } else {
      assert a == run;
    }
    if "docs" in levels {
      UpdateFromKeys(d1, a, docs);
    } else {
      assert Chosen(run, dev, docs, levels) == a;
    }
  }

  /** Updating a dict whose keys are the first occurrences of `a` with
      `dict.fromkeys(more)` gives the first occurrences of `a + more`. */
  lemma UpdateFromKeys<K>(d: Dict<K, Name>, a: seq<K>, more: seq<K>)
    requires d.keys == FirstOccurrences(a)
    ensures PutAll(d, FromKeys(more, None)).keys == FirstOccurrences(a + more)
  {
    FromKeysFacts<K, Name>(more, None);
    PutAllFacts(d, FromKeys(more, None));
    AddKeysFirstOccurrences(d.keys, more);
    AddKeysAppend([], a, more);
  }

  /** `conda`: the run packages, plus the dev and docs packages when those
      levels are asked for, each once in order of first mention; 'txt' gives
      their pip specs, 'env' an environment named after the levels, any
      other mode None. */
  function Conda(run: seq<string>, dev: seq<string>, docs: seq<string>, channels: seq<string>, level: Level, mode: string): (r: CondaOut)
    ensures mode == "txt" ==> r == SpecList(MapSpec(FirstOccurrences(Chosen(run, dev, docs, Levels(level)))))
    ensures mode == "env" ==> r == Environment(CondaName(Levels(level)), channels, FirstOccurrences(Chosen(run, dev, docs, Levels(level))))
    ensures mode != "txt" && mode != "env" ==> r == NoOutput
  {
    var levels := Levels(level);
    var deps := CondaDeps(run, dev, docs, levels);
    CondaDepsKeys(run, dev, docs, levels);
    if mode == "txt" then SpecList(MapSpec(deps.keys))
    else if mode == "env" then Environment(CondaName(levels), channels, deps.keys)
    else NoOutput
  }

  /** Every run package is in the environment, once, whatever the level, and
      nothing that no level lists. */
  lemma CondaRunAlwaysIncluded(run: seq<string>, dev: seq<string>, docs: seq<string>, channels: seq<string>, level: Level)
    ensures var out := Conda(run, dev, docs, channels, level, "env");
      && (forall p :: p in run ==> p in out.dependencies)
      && NoDup(out.dependencies)
      && (forall p :: p in out.dependencies ==> p in run || p in dev || p in docs)
  {
    FirstOccurrencesFacts(Chosen(run, dev, docs, Levels(level)));
  }

  /** A section of the conda-build meta description: a converted rename
      dict (what `run` holds), a list of package names, or anything else. */
  datatype Section = RenameSection(renames: Renames) | Packages(names: seq<Name>) | OtherSection(repr: string)

  function Names(ps: seq<string>): (ns: seq<Name>)
    ensures |ns| == |ps| && forall i :: 0 <= i < |ps| ==> ns[i] == Some(ps[i])
  {
    seq(|ps|, i requires 0 <= i < |ps| => Some(ps[i]))
  }

  lemma NamesAppend(a: seq<string>, b: seq<string>)
    ensures Names(a + b) == Names(a) + Names(b)
  {
  }

  lemma NamesHas(ps: seq<string>, p: string)
    ensures Some(p) in Names(ps) <==> p in ps
  {
    if p in ps {
      var i :| 0 <= i < |ps| && ps[i] == p;
      assert Names(ps)[i] == Some(p);
    }
  }

  /** Wrapping the names and taking first occurrences commute. */
  lemma {:induction false} AddKeysNames(ks: seq<string>, more: seq<string>)
    ensures AddKeys(Names(ks), Names(more)) == Names(AddKeys(ks, more))
  {
    if more != [] {
      var p, x := more[..|more| - 1], more[|more| - 1];
      AddKeysNames(ks, p);
      assert Names(more)[..|more| - 1] == Names(p);
      NamesHas(AddKeys(ks, p), x);
      NamesAppend(AddKeys(ks, p), [x]);
    }
  }

  lemma NamesFirstOccurrences(ps: seq<string>)
    ensures FirstOccurrences(Names(ps)) == Names(FirstOccurrences(ps))
  {
    AddKeysNames([], ps);
  }

  /** The dict `conda_meta` starts from: the run packages of the 'run'
      environment, each once in order of first mention. */
  function RunDeps(run: seq<string>): (d: Deps)
    ensures Valid(d) && d.keys == Names(FirstOccurrences(run))
    ensures forall p :: Some(p) in d.vals <==> p in run
  {
    var ps := Names(FirstOccurrences(run));
    FromKeysFacts<Name, Name>(ps, None);
    FirstOccurrencesFacts(run);
    FirstOccurrencesFacts(ps);
    assert NoDup(ps);
    assert forall p :: Some(p) in ps <==> p in run by {
      forall p ensures Some(p) in ps <==> p in run {
        NamesHas(FirstOccurrences(run), p);
      }
    }
    FromKeys(ps, None)
  }

  /** `conda_meta`: the run environment with the renames of the meta's `run`
      section applied, written back into a copy of the meta as its `run`
      list. A `run` section that is not a dict raises AttributeError. */
  function CondaMeta(run: seq<string>, meta: Dict<string, Section>): (r: Result<Dict<string, Section>>)
    ensures r.Err? <==> "run" in meta.vals && !meta.vals["run"].RenameSection?
    ensures r.Ok? ==> r.value.keys == AddKey(meta.keys, "run")
    ensures r.Ok? ==> forall k :: k != "run" ==> Get(r.value, k) == Get(meta, k)
    ensures r.Ok? && "run" !in meta.vals ==> Get(r.value, "run") == Some(Packages(Names(FirstOccurrences(run))))
    ensures r.Ok? && "run" in meta.vals ==>
      Get(r.value, "run") == Some(Packages(RenameAll(RunDeps(run), meta.vals["run"].renames).keys))
  {
    var deps := FromKeys(Names(Conda(run, [], [], [], Single("run"), "env").dependencies), None);
    CondaRunDeps(run);
    if "run" in meta.vals && !meta.vals["run"].RenameSection? then Err(AttributeError)
    else
      var update: Dict<string, Renames> :=
        if "run" in meta.vals then Dict(["run"], map["run" := meta.vals["run"].renames]) else Empty();
      UpdateRunLevel(deps, update, if "run" in meta.vals then meta.vals["run"].renames else Empty());
      var updated := UpdatePackages(deps, update, Many(["run"]));
      Ok(Put(meta, "run", Packages(updated.keys)))
  }

  /** The run environment of `conda` is the start of `conda_meta`. */
  lemma CondaRunDeps(run: seq<string>)
    ensures FromKeys(Names(Conda(run, [], [], [], Single("run"), "env").dependencies), None) == RunDeps(run)
  {
    assert Chosen(run, [], [], Levels(Single("run"))) == run;
  }

  /** Updating with the meta's `run` renames alone (or with none) applies
      exactly those renames. */
  lemma UpdateRunLevel(d: Deps, update: Dict<string, Renames>, n: Renames)
    requires update == Empty() || update == Dict(["run"], map["run" := n])
    ensures UpdatePackages(d, update, Many(["run"])) == if update == Empty() then d else RenameAll(d, n)
  {
    if update != Empty() {
      assert ["run"][..0] == [];
      assert UpdateLevels(d, [], update.vals, Many(["run"])) == d;
      assert InLevel("run", Many(["run"]));
    }
  }

  /** A meta whose `run` section renames one package k to v: a run package
      k leaves its place and reappears at the end as v (when no other run
      package is called v), and a k that is not a run package is appended. */
  lemma CondaMetaRenameOne(run: seq<string>, meta: Dict<string, Section>, k: string, v: Name)
    requires "run" in meta.vals && meta.vals["run"] == RenameSection(Dict([k], map[k := v]))
    ensures var r := CondaMeta(run, meta); var ps := Names(FirstOccurrences(run));
      && r.Ok?
      && (k in run && v !in RemoveKey(ps, Some(k)) ==> r.value.vals["run"] == Packages(RemoveKey(ps, Some(k)) + [v]))
      && (k !in run ==> r.value.vals["run"] == Packages(ps + [Some(k)]))
  {
    var d := RunDeps(run);
    var n: Renames := Dict([k], map[k := v]);
    assert [k][..0] == [];
    assert RenameKeys(d, [], n.vals) == d;
    assert RenameAll(d, n) == RenameKeys(d, [k], n.vals) == Rename(d, k, v);
    if k in run {
      RenamePresent(d, k, v);
    } else {
      RenameMissing(d, k, v);
    }
  }

  /** The dependency dict of `pip` before the renames: the chosen levels, or
      the `-r` line followed by the dev or docs packages. */
  function PipDeps(run: seq<string>, dev: seq<string>, docs: seq<string>, level: Level, recurseRun: Option<string>): Result<Deps> {
    if recurseRun.None? then
      var levels := Levels(level);
      var d0 := if "run" in levels then PutAll(Empty(), FromKeys(Names(run), None)) else Empty();
      var d1 := if "dev" in levels then PutAll(d0, FromKeys(Names(dev), None)) else d0;
      Ok(if "docs" in levels then PutAll(d1, FromKeys(Names(docs), None)) else d1)
    else
      var d0 := Put(Empty(), Some("-r " + recurseRun.value), None);
      if level == Single("dev") then Ok(PutAll(d0, FromKeys(Names(dev), None)))
      else if level == Single("docs") then Ok(PutAll(d0, FromKeys(Names(docs), None)))
      else Err(ValueError(""))
  }

  /** The packages `pip` lists without `recurse_run`: run, dev and docs,
      each only when its level is asked for. */
  function PipChosen(run: seq<string>, dev: seq<string>, docs: seq<string>, levels: seq<string>): seq<string> {
    (if "run" in levels then run else []) + (if "dev" in levels then dev else []) + (if "docs" in levels then docs else [])
  }

  /** Without `recurse_run` the dependency dict of `pip` lists the chosen
      levels' packages once each, in order of first mention. */
  lemma PipDepsKeys(run: seq<string>, dev: seq<string>, docs: seq<string>, level: Level)
    ensures PipDeps(run, dev, docs, level, None).Ok?
    ensures PipDeps(run, dev, docs, level, None).value.keys == Names(FirstOccurrences(PipChosen(run, dev, docs, Levels(level))))
  {
    var levels := Levels(level);
    var a0 := if "run" in levels then run else [];
    var a1 := a0 + (if "dev" in levels then dev else []);
    var empty: Deps := Empty();
    var d0: Deps := if "run" in levels then PutAll(empty, FromKeys(Names(run), None)) else empty;
    assert d0.keys == FirstOccurrences(Names(a0)) by {
      if "run" in levels {
        UpdateFromKeys(empty, Names([]), Names(run));
        assert Names([]) + Names(run) == Names(a0);
      }
    }
    var d1: Deps := if "dev" in levels then PutAll(d0, FromKeys(Names(dev), None)) else d0;
    assert d1.keys == FirstOccurrences(Names(a1)) by {
      if "dev" in levels {
        UpdateFromKeys(d0, Names(a0), Names(dev));
        NamesAppend(a0, dev);
      } else {
        assert a1 == a0;
      }
    }
    assert PipDeps(run, dev, docs, level, None).value.keys == FirstOccurrences(Names(PipChosen(run, dev, docs, levels))) by {
      if "docs" in levels {
        UpdateFromKeys(d1, Names(a1), Names(docs));
        NamesAppend(a1, docs);
      } else {
        assert PipChosen(run, dev, docs, levels) == a1;
      }
    }
    NamesFirstOccurrences(PipChosen(run, dev, docs, levels));
  }

  /** With `recurse_run` and level 'dev' or 'docs' the dependency dict of
      `pip` is the `-r` line followed by that level's packages, each once. */
  lemma PipDepsKeysRecurse(run: seq<string>, dev: seq<string>, docs: seq<string>, level: Level, rr: string)
    requires level == Single("dev") || level == Single("docs")
    ensures PipDeps(run, dev, docs, level, Some(rr)).Ok?
    ensures PipDeps(run, dev, docs, level, Some(rr)).value.keys
         == Names(FirstOccurrences(["-r " + rr] + (if level == Single("dev") then dev else docs)))
  {
    var line := Some("-r " + rr);
    var d0: Deps := Put(Empty(), line, None);
    var ps := if level == Single("dev") then dev else docs;
    assert [line][..0] == [];
    assert AddKeys([], [line]) == AddKey(AddKeys([], []), line) == [line];
    assert d0.keys == FirstOccurrences([line]);
    assert PipDeps(run, dev, docs, level, Some(rr)).value == PutAll(d0, FromKeys(Names(ps), None));
    UpdateFromKeys(d0, [line], Names(ps));
    NamesAppend(["-r " + rr], ps);
    assert Names(["-r " + rr]) == [line];
    NamesFirstOccurrences(["-r " + rr] + ps);
  }

  /** No level of the `pip` section that `level` selects. */
  predicate NoActiveRenames(pip: Dict<string, Renames>, level: Level) {
    forall i :: 0 <= i < |pip.keys| ==> !InLevel(pip.keys[i], level)
  }

  lemma {:induction false} AllNamesOfNames(ps: seq<string>)
    ensures AllNames(Names(ps)) == Ok(ps)
  {
    if ps != [] {
      AllNamesOfNames(ps[1..]);
      assert Names(ps)[1..] == Names(ps[1..]);
      assert Names(ps)[0] == Some(ps[0]);
      assert [ps[0]] + ps[1..] == ps;
    }
  }

  /** Without an active rename the requirement lines of `pip` are the spec
      lines of its dependency dict's keys. */
  lemma PipResultUnrenamed(run: seq<string>, dev: seq<string>, docs: seq<string>, pip: Dict<string, Renames>, level: Level, recurseRun: Option<string>)
    ensures recurseRun.None? || level == Single("dev") || level == Single("docs") ==>
      PipDeps(run, dev, docs, level, recurseRun).Ok?
    ensures var d := PipDeps(run, dev, docs, level, recurseRun);
      && (recurseRun.None? && NoActiveRenames(pip, Many(Levels(level))) ==>
           AllNames(UpdatePackages(d.value, pip, PipLevel(level, recurseRun)).keys)
             == Ok(FirstOccurrences(PipChosen(run, dev, docs, Levels(level)))))
      && (recurseRun.Some? && (level == Single("dev") || level == Single("docs")) && NoActiveRenames(pip, level) ==>
           AllNames(UpdatePackages(d.value, pip, PipLevel(level, recurseRun)).keys)
             == Ok(FirstOccurrences(["-r " + recurseRun.value] + (if level == Single("dev") then dev else docs))))
  {
    if recurseRun.None? {
      PipDepsKeys(run, dev, docs, level);
    }
    if recurseRun.None? && NoActiveRenames(pip, Many(Levels(level))) {
      PipDepsKeys(run, dev, docs, level);
      var d := PipDeps(run, dev, docs, level, recurseRun).value;
      InactiveLevelsIgnored(d, pip.keys, pip.vals, Many(Levels(level)));
      AllNamesOfNames(FirstOccurrences(PipChosen(run, dev, docs, Levels(level))));
    }
    if recurseRun.Some? && (level == Single("dev") || level == Single("docs")) && NoActiveRenames(pip, level) {
      PipDepsKeysRecurse(run, dev, docs, level, recurseRun.value);
      var d := PipDeps(run, dev, docs, level, recurseRun).value;
      InactiveLevelsIgnored(d, pip.keys, pip.vals, level);
      AllNamesOfNames(FirstOccurrences(["-r " + recurseRun.value] + (if level == Single("dev") then dev else docs)));
    }
  }

  /** The level `add_update_package` receives in `pip`: the tuple when no
      `recurse_run` is given, the str itself otherwise. */
  function PipLevel(level: Level, recurseRun: Option<string>): Level {
    if recurseRun.None? then Many(Levels(level)) else level
  }

  /** The keys as strings, TypeError at the first None (`'=' in None`). */
  function AllNames(ks: seq<Name>): Result<seq<string>> {
    if ks == [] then Ok([])
    else if ks[0].None? then Err(TypeError)
    else
      var rest := AllNames(ks[1..]);
      if rest.Err? then rest else Ok([ks[0].value] + rest.value)
  }

  lemma {:induction false} AllNamesFacts(ks: seq<Name>)
    ensures AllNames(ks).Err? <==> None in ks
    ensures AllNames(ks).Ok? ==> |AllNames(ks).value| == |ks| && forall i :: 0 <= i < |ks| ==> ks[i] == Some(AllNames(ks).value[i])
  {
    if ks != [] {
      AllNamesFacts(ks[1..]);
      assert ks == [ks[0]] + ks[1..];
    }
  }

  /** `pip`: the requirement lines of the chosen levels after the renames
      of the `pip` section; a `recurse_run` level other than 'dev' or 'docs'
      raises ValueError, and a package renamed to None makes the spec
      conversion raise TypeError. */
  function Pip(run: seq<string>, dev: seq<string>, docs: seq<string>, pip: Dict<string, Renames>, level: Level, recurseRun: Option<string>): (r: Result<seq<string>>)
    ensures recurseRun.Some? && level != Single("dev") && level != Single("docs") ==> r == Err(ValueError(""))
    ensures recurseRun.None? && NoActiveRenames(pip, Many(Levels(level))) ==>
      r == Ok(MapSpec(FirstOccurrences(PipChosen(run, dev, docs, Levels(level)))))
    ensures recurseRun.Some? && (level == Single("dev") || level == Single("docs")) && NoActiveRenames(pip, level) ==>
      r == Ok(MapSpec(FirstOccurrences(["-r " + recurseRun.value] + (if level == Single("dev") then dev else docs))))
  {
    PipResultUnrenamed(run, dev, docs, pip, level, recurseRun);
    var d := PipDeps(run, dev, docs, level, recurseRun);
    if d.Err? then Err(d.error)
    else
      var names := AllNames(UpdatePackages(d.value, pip, PipLevel(level, recurseRun)).keys);
      if names.Err? then Err(names.error) else Ok(MapSpec(names.value))
  }

  /** With `recurse_run` the first requirement line is the `-r` line, as
      long as no rename lists it. */
  lemma PipRecurseFirst(run: seq<string>, dev: seq<string>, docs: seq<string>, pip: Dict<string, Renames>, level: Level, rr: string)
    requires level == Single("dev") || level == Single("docs")
    requires forall l :: l in pip.vals ==> "-r " + rr !in pip.vals[l].vals
    ensures var r := Pip(run, dev, docs, pip, level, Some(rr));
      r.Ok? ==> |r.value| >= 1 && r.value[0] == ConvertToSpec("-r " + rr)
  {
    var d := PipDeps(run, dev, docs, level, Some(rr)).value;
    var first := Some("-r " + rr);
    if level == Single("dev") {
      RecurseLineFirst(first, dev);
    } else {
      RecurseLineFirst(first, docs);
    }
    UpdateFirstKey(d, pip.keys, pip.vals, level, first);
    var u := UpdatePackages(d, pip, level);
    AllNamesFacts(u.keys);
  }

  lemma RecurseLineFirst(first: Name, ps: seq<string>)
    ensures var d: Deps := PutAll(Put(Empty(), first, None), FromKeys(Names(ps), None)); d.keys != [] && d.keys[0] == first
  {
    var start := Put(Empty<Name, Name>(), first, None);
    assert start.keys == [first];
    FromKeysFacts<Name, Name>(Names(ps), None);
    PutAllFacts(start, FromKeys<Name, Name>(Names(ps), None));
    AddKeysPrefix([first], FromKeys<Name, Name>(Names(ps), None).keys);
  }

  lemma {:induction false} AddKeysPrefix<K>(ks: seq<K>, more: seq<K>)
    requires ks != []
    ensures AddKeys(ks, more) != [] && AddKeys(ks, more)[0] == ks[0]
  {
    if more != [] {
      AddKeysPrefix(ks, more[..|more| - 1]);
    }
  }

  lemma {:induction false} UpdateFirstKey(d: Deps, ls: seq<string>, vals: map<string, Renames>, level: Level, first: Name)
    requires d.keys != [] && d.keys[0] == first
    requires forall l :: l in vals ==> first.None? || first.value !in vals[l].vals
    ensures var u := UpdateLevels(d, ls, vals, level); u.keys != [] && u.keys[0] == first
  {
    if ls != [] {
      UpdateFirstKey(d, ls[..|ls| - 1], vals, level, first);
      var l := ls[|ls| - 1];
      if l in vals && InLevel(l, level) {
        RenameKeysFirstKey(UpdateLevels(d, ls[..|ls| - 1], vals, level), vals[l].keys, vals[l].vals, first);
      }
    }
  }

  lemma {:induction false} RenameKeysFirstKey(d: Deps, ks: seq<string>, vals: map<string, Name>, first: Name)
    requires d.keys != [] && d.keys[0] == first
    requires first.None? || first.value !in vals
    ensures var u := RenameKeys(d, ks, vals); u.keys != [] && u.keys[0] == first
  {
    if ks != [] {
      var p := ks[..|ks| - 1];
      RenameKeysFirstKey(d, p, vals, first);
      var prev := RenameKeys(d, p, vals);
      var k := ks[|ks| - 1];
      if k in vals {
        assert Some(k) != first;
        if Some(k) in prev.vals {
          RemoveKeyFacts(prev.keys, Some(k));
          AddKeysPrefix(RemoveKey(prev.keys, Some(k)), [vals[k]]);
        } else {
          AddKeysPrefix(prev.keys, [Some(k)]);
        }
      }
    }
  }
}
