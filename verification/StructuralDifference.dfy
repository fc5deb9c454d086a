/** Differences of nested metric records. */
module StructuralDifference {
  import opened Sequences

  /** A parsed JSON value. Booleans count as numbers; Other stands for strings and null. */
  datatype Data =
    | Num(n: real)
    | Other(text: string)
    | List(items: seq<Data>)
    | Dict(entries: map<string, Data>)
  {
    predicate IsContainer() { List? || Dict? }
  }

  function Value(d: Data): real { if d.Num? then d.n else 0.0 }

  const ZERO := Num(0.0)

  function Entry(m: map<string, Data>, key: string): Data { if key in m then m[key] else ZERO }

  function Item(s: seq<Data>, i: nat): Data { if i < |s| then s[i] else ZERO }

  function MaxLength(a: seq<Data>, b: seq<Data>): nat { if |a| >= |b| then |a| else |b| }

  /** hierarchical_apply: missing and incompatible parts count as zero. Every call works on strictly smaller parts. */
  function Apply(a: Data, b: Data, fun: (real, real) -> real): Data
    decreases a.IsContainer() && b.IsContainer(), a
  {
    match (a, b)
    case (Dict(m), Dict(n)) => Dict(map key | key in m.Keys + n.Keys :: Apply(Entry(m, key), Entry(n, key), fun))
    case (List(s), List(t)) =>
      List(seq(MaxLength(s, t), i requires 0 <= i < MaxLength(s, t) => Apply(Item(s, i), Item(t, i), fun)))
    case _ => Num(fun(Value(a), Value(b)))
  }

  /** The same with the list branch as the loop that appends to its result. */
  method HierarchicalApply(a: Data, b: Data, fun: (real, real) -> real) returns (r: Data)
    ensures r == Apply(a, b, fun)
    decreases a.IsContainer() && b.IsContainer(), a
  {
    match (a, b) {
      case (Dict(m), Dict(n)) =>
        var keys := m.Keys + n.Keys;
        var entries: map<string, Data> := map[];
        while keys != {}
          invariant keys <= m.Keys + n.Keys && entries.Keys == m.Keys + n.Keys - keys
          invariant forall key :: key in entries ==> entries[key] == Apply(Entry(m, key), Entry(n, key), fun)
          decreases keys
        {
          var key :| key in keys;
          var value := HierarchicalApply(Entry(m, key), Entry(n, key), fun);
          entries := entries[key := value];
          keys := keys - {key};
        }
        r := Dict(entries);
      case (List(s), List(t)) =>
        var result: seq<Data> := [];
        for i := 0 to MaxLength(s, t)
          invariant |result| == i && forall j :: 0 <= j < i ==> result[j] == Apply(Item(s, j), Item(t, j), fun)
        {
          var value := HierarchicalApply(Item(s, i), Item(t, i), fun);
          result := result + [value];
        }
        r := List(result);
      case _ => r := Num(fun(Value(a), Value(b)));
    }
  }

  function Minus(x: real, y: real): real { x - y }

  function Plus(x: real, y: real): real { x + y }

  function Difference(a: Data, b: Data): Data { Apply(a, b, Minus) }

  function Sum(a: Data, b: Data): Data { Apply(a, b, Plus) }

  /** All numbers negated. */
  function Negated(d: Data): Data
  {
    match d
    case Num(n) => Num(0.0 - n)
    case Other(_) => d
    case List(s) => List(seq(|s|, i requires 0 <= i < |s| => Negated(s[i])))
    case Dict(m) => Dict(map key | key in m :: Negated(m[key]))
  }

  /** Antisymmetry, for any two values: missing keys, unequal lists and mismatched types included. */
  lemma {:induction false} DifferenceIsAntisymmetric(a: Data, b: Data)
    ensures Difference(b, a) == Negated(Difference(a, b))
    decreases a.IsContainer() && b.IsContainer(), a
  {
    match (a, b) {
      case (Dict(m), Dict(n)) =>
        forall key | key in m.Keys + n.Keys
          ensures Difference(Entry(n, key), Entry(m, key)) == Negated(Difference(Entry(m, key), Entry(n, key)))
        {
          DifferenceIsAntisymmetric(Entry(m, key), Entry(n, key));
        }
        assert m.Keys + n.Keys == n.Keys + m.Keys;
      case (List(s), List(t)) =>
        forall i | 0 <= i < MaxLength(s, t)
          ensures Difference(Item(t, i), Item(s, i)) == Negated(Difference(Item(s, i), Item(t, i)))
        {
          DifferenceIsAntisymmetric(Item(s, i), Item(t, i));
        }
      case _ =>
    }
  }

  /** The same containers with the same keys and lengths down to numbers or other leaves. */
  predicate SameShape(a: Data, b: Data)
  {
    match (a, b)
    case (Dict(m), Dict(n)) => m.Keys == n.Keys && forall key :: key in m ==> SameShape(m[key], n[key])
    case (List(s), List(t)) => |s| == |t| && forall i :: 0 <= i < |s| ==> SameShape(s[i], t[i])
    case _ => !a.IsContainer() && !b.IsContainer()
  }

  lemma {:induction false} SameShapeTransitive(a: Data, b: Data, c: Data)
    requires SameShape(a, b) && SameShape(b, c)
    ensures SameShape(a, c)
  {
    match a {
      case Dict(m) =>
        forall key | key in m ensures SameShape(m[key], c.entries[key]) {
          SameShapeTransitive(m[key], b.entries[key], c.entries[key]);
        }
      case List(s) =>
        forall i | 0 <= i < |s| ensures SameShape(s[i], c.items[i]) {
          SameShapeTransitive(s[i], b.items[i], c.items[i]);
        }
      case _ =>
    }
  }

  /** b does not lose or add containers between a and c: wherever both ends hold a dictionary or both hold a list, so
      does b, with no part that is missing at both ends. */
  predicate Between(a: Data, b: Data, c: Data)
    decreases a.IsContainer() && c.IsContainer(), a
  {
    match (a, c)
    case (Dict(m), Dict(n)) =>
      && b.Dict? && b.entries.Keys <= m.Keys + n.Keys
      && forall key :: key in m.Keys + n.Keys ==> Between(Entry(m, key), Entry(b.entries, key), Entry(n, key))
    case (List(s), List(t)) =>
      && b.List? && |b.items| <= MaxLength(s, t)
      && forall i :: 0 <= i < MaxLength(s, t) ==> Between(Item(s, i), Item(b.items, i), Item(t, i))
    case _ => true
  }

  ghost predicate Composes(a: Data, b: Data, c: Data)
  {
    Difference(c, a) == Sum(Difference(b, a), Difference(c, b))
  }

  lemma KeyComposes(m: map<string, Data>, k: map<string, Data>, n: map<string, Data>, key: string)
    ensures Entry(Sum(Difference(Dict(k), Dict(m)), Difference(Dict(n), Dict(k))).entries, key)
         == Sum(Difference(Entry(k, key), Entry(m, key)), Difference(Entry(n, key), Entry(k, key)))
  {
    DifferenceAtKey(m, k, key);
    DifferenceAtKey(k, n, key);
    SumAtKey(Difference(Dict(k), Dict(m)).entries, Difference(Dict(n), Dict(k)).entries, key);
  }

  /** Two maps, the second with possibly more keys, agree when it has none and the values agree as q says. */
  lemma MapsAgreeIff(x: map<string, Data>, y: map<string, Data>, extra: set<string>, q: string -> bool)
    requires y.Keys == x.Keys + extra && forall key :: key in x ==> (x[key] == y[key] <==> q(key))
    ensures x == y <==> extra <= x.Keys && forall key :: key in x ==> q(key)
  {
    if x == y {
      assert extra <= y.Keys;
    }
  }

  lemma DictComposes(m: map<string, Data>, k: map<string, Data>, n: map<string, Data>)
    ensures Composes(Dict(m), Dict(k), Dict(n)) <==>
      (k.Keys <= m.Keys + n.Keys
       && forall key :: key in m.Keys + n.Keys ==> Composes(Entry(m, key), Entry(k, key), Entry(n, key)))
  {
    var whole := Difference(Dict(n), Dict(m));
    var parts := Sum(Difference(Dict(k), Dict(m)), Difference(Dict(n), Dict(k)));
    DictKeys(m, k, n);
    forall key | key in m.Keys + n.Keys
      ensures whole.entries[key] == parts.entries[key] <==> Composes(Entry(m, key), Entry(k, key), Entry(n, key))
    {
      KeyAgrees(m, k, n, key);
    }
    MapsAgreeIff(whole.entries, parts.entries, k.Keys, key => Composes(Entry(m, key), Entry(k, key), Entry(n, key)));
    assert Composes(Dict(m), Dict(k), Dict(n)) <==> whole.entries == parts.entries;
  }

  lemma DictKeys(m: map<string, Data>, k: map<string, Data>, n: map<string, Data>)
    ensures Difference(Dict(n), Dict(m)).entries.Keys == m.Keys + n.Keys
    ensures Sum(Difference(Dict(k), Dict(m)), Difference(Dict(n), Dict(k))).entries.Keys == m.Keys + n.Keys + k.Keys
  {
  }

  lemma KeyAgrees(m: map<string, Data>, k: map<string, Data>, n: map<string, Data>, key: string)
    requires key in m.Keys + n.Keys
    ensures var whole := Difference(Dict(n), Dict(m)).entries;
      var parts := Sum(Difference(Dict(k), Dict(m)), Difference(Dict(n), Dict(k))).entries;
      && key in whole && key in parts
      && (whole[key] == parts[key] <==> Composes(Entry(m, key), Entry(k, key), Entry(n, key)))
  {
    DifferenceAtKey(m, n, key);
    KeyComposes(m, k, n, key);
  }

  /** The difference at a key, present or not, is the difference of the entries. */
  lemma DifferenceAtKey(m: map<string, Data>, n: map<string, Data>, key: string)
    ensures Entry(Difference(Dict(n), Dict(m)).entries, key) == Difference(Entry(n, key), Entry(m, key))
  {
  }

  lemma SumAtKey(m: map<string, Data>, n: map<string, Data>, key: string)
    ensures Entry(Sum(Dict(m), Dict(n)).entries, key) == Sum(Entry(m, key), Entry(n, key))
  {
  }

  lemma DifferenceAtIndex(s: seq<Data>, t: seq<Data>, i: nat)
    ensures Item(Difference(List(t), List(s)).items, i) == Difference(Item(t, i), Item(s, i))
  {
  }

  lemma SumAtIndex(s: seq<Data>, t: seq<Data>, i: nat)
    ensures Item(Sum(List(s), List(t)).items, i) == Sum(Item(s, i), Item(t, i))
  {
  }

  lemma ListComposes(a: Data, b: Data, c: Data)
    requires a.List? && b.List? && c.List?
    ensures Composes(a, b, c) <==>
      (|b.items| <= MaxLength(a.items, c.items)
       && forall i :: 0 <= i < MaxLength(a.items, c.items) ==>
         Composes(Item(a.items, i), Item(b.items, i), Item(c.items, i)))
  {
    var whole, parts := Difference(c, a).items, Sum(Difference(b, a), Difference(c, b)).items;
    forall i | 0 <= i < MaxLength(a.items, c.items)
      ensures whole[i] == parts[i] <==> Composes(Item(a.items, i), Item(b.items, i), Item(c.items, i))
    {
      SumAtIndex(Difference(b, a).items, Difference(c, b).items, i);
      DifferenceAtIndex(a.items, b.items, i);
      DifferenceAtIndex(b.items, c.items, i);
    }
    assert Composes(a, b, c) <==> whole == parts;
  }

  /** Going from a to c is going from a to b and on to c, exactly when b lies between them in shape. */
  lemma {:induction false} DifferencesComposeIff(a: Data, b: Data, c: Data)
    ensures Composes(a, b, c) <==> Between(a, b, c)
    decreases a.IsContainer() && c.IsContainer(), a
  {
    match (a, c) {
      case (Dict(m), Dict(n)) =>
        if b.Dict? {
          forall key | key in m.Keys + n.Keys
            ensures Composes(Entry(m, key), Entry(b.entries, key), Entry(n, key))
               <==> Between(Entry(m, key), Entry(b.entries, key), Entry(n, key))
          {
            DifferencesComposeIff(Entry(m, key), Entry(b.entries, key), Entry(n, key));
          }
          DictComposes(m, b.entries, n);
        }
      case (List(s), List(t)) =>
        if b.List? {
          forall i | 0 <= i < MaxLength(s, t)
            ensures Composes(Item(s, i), Item(b.items, i), Item(t, i)) <==>
              Between(Item(s, i), Item(b.items, i), Item(t, i))
          {
            DifferencesComposeIff(Item(s, i), Item(b.items, i), Item(t, i));
          }
          ListComposes(a, b, c);
        }
      case _ =>
    }
  }

  lemma {:induction false} SameShapeIsBetween(a: Data, b: Data, c: Data)
    requires SameShape(a, b) && SameShape(b, c)
    ensures Between(a, b, c)
  {
    match a {
      case Dict(m) =>
        forall key | key in m ensures Between(m[key], b.entries[key], c.entries[key]) {
          SameShapeIsBetween(m[key], b.entries[key], c.entries[key]);
        }
      case List(s) =>
        forall i | 0 <= i < |s| ensures Between(s[i], b.items[i], c.items[i]) {
          SameShapeIsBetween(s[i], b.items[i], c.items[i]);
        }
      case _ =>
    }
  }

  /** Every snapshot has the shape of the one before. */
  predicate Chain(snapshots: seq<Data>)
  {
    forall i :: 0 < i < |snapshots| ==> SameShape(snapshots[i - 1], snapshots[i])
  }

  /** The consecutive differences of a run of snapshots added up. */
  function Accumulated(snapshots: seq<Data>): Data
    requires |snapshots| >= 2
  {
    var last := |snapshots| - 1;
    if last == 1 then Difference(snapshots[1], snapshots[0])
    else Sum(Accumulated(snapshots[..last]), Difference(snapshots[last], snapshots[last - 1]))
  }

  lemma {:induction false} ChainEnds(snapshots: seq<Data>)
    requires Chain(snapshots) && |snapshots| >= 2
    ensures SameShape(snapshots[0], snapshots[|snapshots| - 1])
  {
    var last := |snapshots| - 1;
    assert SameShape(snapshots[last - 1], snapshots[last]);
    if last > 1 {
      assert Chain(snapshots[..last]);
      ChainEnds(snapshots[..last]);
      SameShapeTransitive(snapshots[0], snapshots[last - 1], snapshots[last]);
    }
  }

  /** Conservation: the difference of the last and the first snapshot is the sum of all consecutive differences. */
  lemma {:induction false} DifferencesTelescope(snapshots: seq<Data>)
    requires Chain(snapshots) && |snapshots| >= 2
    ensures Difference(snapshots[|snapshots| - 1], snapshots[0]) == Accumulated(snapshots)
  {
    var last := |snapshots| - 1;
    if last > 1 {
      assert Chain(snapshots[..last]);
      DifferencesTelescope(snapshots[..last]);
      ChainEnds(snapshots[..last]);
      assert SameShape(snapshots[last - 1], snapshots[last]);
      SameShapeIsBetween(snapshots[0], snapshots[last - 1], snapshots[last]);
      DifferencesComposeIff(snapshots[0], snapshots[last - 1], snapshots[last]);
    }
  }
}
