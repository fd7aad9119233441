/**
  The insertion-ordered map kept in a vector (ordered_map.hpp), proved to refine a map
  together with the order in which its keys were first inserted.
*/
module OrderedMap {
  import opened Common

  datatype Entry<K, V> = Entry(key: K, value: V)

  ghost predicate DistinctKeys<K, V>(s: seq<Entry<K, V>>) {
    forall i, j | 0 <= i < j < |s| :: s[i].key != s[j].key
  }

  /** Position of the first entry with the key, or |s|. */
  function Position<K(==), V>(s: seq<Entry<K, V>>, key: K): (i: nat)
    ensures i <= |s| && (i < |s| ==> s[i].key == key)
    ensures forall j | 0 <= j < i :: s[j].key != key
  {
    if s == [] || s[0].key == key then 0 else 1 + Position(s[1..], key)
  }

  function Has<K(==), V>(s: seq<Entry<K, V>>, key: K): bool {
    Position(s, key) < |s|
  }

  // ---------------------------------------------------------------- what each operation does to the vector

  /** insert is the same as emplace. */
  datatype Op<K, V> =
    | Emplace(key: K, value: V)
    | Subscript(key: K)
    | Assign(key: K, value: V)
    | EraseKey(key: K)
    | EraseRange(first: nat, last: nat)

  function Spliced<T>(s: seq<T>, first: nat, last: nat): seq<T>
    requires first <= last <= |s|
  {
    s[..first] + s[last..]
  }

  /** Iterator arguments are within the vector; writes go through a reference to a live entry. */
  predicate Legal<K(==), V>(s: seq<Entry<K, V>>, op: Op<K, V>) {
    match op
    case EraseRange(first, last) => first <= last <= |s|
    case Assign(key, _) => Has(s, key)
    case _ => true
  }

  function Apply<K(==), V>(s: seq<Entry<K, V>>, op: Op<K, V>, initial: V): seq<Entry<K, V>>
    requires Legal(s, op)
  {
    match op
    case Emplace(key, value) => if Has(s, key) then s else s + [Entry(key, value)]
    case Subscript(key) => if Has(s, key) then s else s + [Entry(key, initial)]
    case Assign(key, value) => s[Position(s, key) := Entry(key, value)]
    case EraseKey(key) => if Has(s, key) then Spliced(s, Position(s, key), Position(s, key) + 1) else s
    case EraseRange(first, last) => Spliced(s, first, last)
  }

  class VectorMap<K(==), V> {
    var items: seq<Entry<K, V>>
    const initial: V

    constructor (initial: V)
      ensures items == [] && this.initial == initial
    {
      items, this.initial := [], initial;
    }

    method Find(key: K) returns (it: nat)
      ensures it == Position(items, key)
    {
      it := 0;
      while it < |items|
        invariant it <= Position(items, key)
      {
        if items[it].key == key {
          return;
        }
        it := it + 1;
      }
    }

    method Count(key: K) returns (n: nat)
      ensures n == if Has(items, key) then 1 else 0
    {
      var it := Find(key);
      n := if it != |items| then 1 else 0;
    }

    /** Err stands for std::out_of_range. */
    method At(key: K) returns (r: Result<V, ()>)
      ensures r == if Has(items, key) then Ok(items[Position(items, key)].value) else Err(())
    {
      var it := 0;
      while it < |items|
        invariant it <= Position(items, key)
      {
        if items[it].key == key {
          return Ok(items[it].value);
        }
        it := it + 1;
      }
      r := Err(());
    }

    method Emplace(key: K, value: V) returns (it: nat, inserted: bool)
      modifies this
      ensures items == Apply(old(items), Op.Emplace(key, value), initial)
      ensures inserted <==> !Has(old(items), key)
      ensures it < |items| && items[it].key == key && it == Position(old(items), key)
    {
      it := 0;
      while it < |items|
        invariant it <= Position(items, key) && items == old(items)
      {
        if items[it].key == key {
          return it, false;
        }
        it := it + 1;
      }
      items := items + [Entry(key, value)];
      inserted := true;
    }

    /** insert of an entry that is copied; the moving overload calls Emplace. */
    method Insert(entry: Entry<K, V>) returns (it: nat, inserted: bool)
      modifies this
      ensures items == Apply(old(items), Op.Emplace(entry.key, entry.value), initial)
      ensures inserted <==> !Has(old(items), entry.key)
      ensures it < |items| && items[it].key == entry.key && it == Position(old(items), entry.key)
    {
      it := 0;
      while it < |items|
        invariant it <= Position(items, entry.key) && items == old(items)
      {
        if items[it].key == entry.key {
          return it, false;
        }
        it := it + 1;
      }
      items := items + [entry];
      it, inserted := |items| - 1, true;
    }

    /** operator[]: the slot that the returned reference denotes. */
    method Subscript(key: K) returns (slot: nat)
      modifies this
      ensures items == Apply(old(items), Op.Subscript(key), initial)
      ensures slot < |items| && items[slot].key == key && slot == Position(old(items), key)
    {
      var inserted: bool;
      slot, inserted := Emplace(key, initial);
    }

    method Erase(key: K) returns (erased: nat)
      modifies this
      ensures items == Apply(old(items), Op.EraseKey(key), initial)
      ensures erased == if Has(old(items), key) then 1 else 0
    {
      var it := 0;
      while it < |items|
        invariant it <= Position(items, key) && items == old(items)
      {
        if items[it].key == key {
          ShiftLeft(it, 1);
          return 1;
        }
        it := it + 1;
      }
      erased := 0;
    }

    /** Re-constructs the entries from `first` on with those n places further right, then drops the last n. */
    method ShiftLeft(first: nat, n: nat)
      requires 0 < n && first + n <= |items|
      modifies this
      ensures items == Spliced(old(items), first, first + n)
    {
      var it := first;
      while it + n != |items|
        invariant first <= it && it + n <= |items| == |old(items)|
        invariant forall j | 0 <= j < it :: items[j] == old(items)[if j < first then j else j + n]
        invariant forall j | it <= j < |items| :: items[j] == old(items)[j]
        decreases |items| - it
      {
        items := items[it := items[it + n]];
        it := it + 1;
      }
      items := items[..|items| - n];
    }

    method EraseRange(first: nat, last: nat) returns (next: nat)
      requires first <= last <= |items|
      modifies this
      ensures items == Apply(old(items), Op.EraseRange(first, last), initial)
      ensures next == first
    {
      if first == last {
        return first;
      }
      ShiftLeft(first, last - first);
      next := first;
    }

    /** Writing through the reference that operator[] or at returned. */
    method Write(key: K, slot: nat, value: V)
      requires slot == Position(items, key) < |items|
      modifies this
      ensures items == Apply(old(items), Op.Assign(key, value), initial)
    {
      items := items[slot := Entry(items[slot].key, value)];
    }
  }

  // ---------------------------------------------------------------- the abstract map with its order

  /** A map and the order in which its keys came in. */
  datatype Ordered<K, V> = Ordered(dict: map<K, V>, order: seq<K>)

  function Without<K(==)>(order: seq<K>, key: K): seq<K> {
    if order == [] then [] else (if order[0] == key then [] else [order[0]]) + Without(order[1..], key)
  }

  function Elements<K(==)>(ks: seq<K>): set<K> {
    set k | k in ks
  }

  predicate LegalFor<K(==), V>(a: Ordered<K, V>, op: Op<K, V>) {
    match op
    case EraseRange(first, last) => first <= last <= |a.order|
    case Assign(key, _) => key in a.dict
    case _ => true
  }

  /** The same operations told about the map and the order alone. */
  function Performed<K(==), V>(a: Ordered<K, V>, op: Op<K, V>, initial: V): Ordered<K, V>
    requires LegalFor(a, op)
  {
    match op
    case Emplace(key, value) => if key in a.dict then a else Ordered(a.dict[key := value], a.order + [key])
    case Subscript(key) => if key in a.dict then a else Ordered(a.dict[key := initial], a.order + [key])
    case Assign(key, value) => a.(dict := a.dict[key := value])
    case EraseKey(key) => Ordered(a.dict - {key}, Without(a.order, key))
    case EraseRange(first, last) =>
      Ordered(a.dict - Elements(a.order[first..last]), Spliced(a.order, first, last))
  }

  function Keys<K, V>(s: seq<Entry<K, V>>): seq<K> {
    seq(|s|, i requires 0 <= i < |s| => s[i].key)
  }

  function Dict<K(==), V>(s: seq<Entry<K, V>>): map<K, V> {
    map k | k in Keys(s) && Has(s, k) :: s[Position(s, k)].value
  }

  function Meaning<K(==), V>(s: seq<Entry<K, V>>): Ordered<K, V> {
    Ordered(Dict(s), Keys(s))
  }

  lemma PositionIff<K, V>(s: seq<Entry<K, V>>, key: K, i: nat)
    requires DistinctKeys(s) && i < |s|
    ensures Position(s, key) == i <==> s[i].key == key
  {
  }

  lemma InDictIff<K, V>(s: seq<Entry<K, V>>, key: K)
    ensures key in Dict(s) <==> Has(s, key)
    ensures key in Dict(s) ==> Dict(s)[key] == s[Position(s, key)].value
    ensures key in Keys(s) <==> Has(s, key)
  {
    if Has(s, key) {
      assert Keys(s)[Position(s, key)] == key;
    }
    if key in Keys(s) {
      var i :| 0 <= i < |s| && Keys(s)[i] == key;
      assert s[i].key == key;
    }
  }

  /** find, count and at read the abstract map. */
  lemma LookupsReadTheMap<K, V>(s: seq<Entry<K, V>>, key: K)
    requires DistinctKeys(s)
    ensures var a := Meaning(s);
            && (Has(s, key) <==> key in a.dict)
            && (Has(s, key) ==> a.order[Position(s, key)] == key && a.dict[key] == s[Position(s, key)].value)
    ensures |Meaning(s).order| == |Meaning(s).dict|
  {
    InDictIff(s, key);
    DictSize(s);
  }

  lemma {:induction false} DictSize<K, V>(s: seq<Entry<K, V>>)
    requires DistinctKeys(s)
    ensures |Dict(s)| == |s|
  {
    if s == [] {
      assert Dict(s).Keys == {};
    } else {
      var t, e := s[..|s| - 1], s[|s| - 1];
      assert t + [e] == s;
      DictSize(t);
      AppendMeaning(t, e);
    }
  }

  lemma AppendEntry<K, V>(s: seq<Entry<K, V>>, e: Entry<K, V>, k: K)
    requires !Has(s, e.key)
    ensures k in Dict(s + [e]) <==> k in Dict(s) || k == e.key
    ensures k in Dict(s + [e]) ==> Dict(s + [e])[k] == if k == e.key then e.value else Dict(s)[k]
  {
    InDictIff(s, k);
    InDictIff(s + [e], k);
    PositionAppend(s, e, k);
  }

  lemma AppendKeys<K, V>(s: seq<Entry<K, V>>, e: Entry<K, V>)
    requires !Has(s, e.key)
    ensures Keys(s + [e]) == Keys(s) + [e.key]
    ensures DistinctKeys(s) ==> DistinctKeys(s + [e])
  {
  }

  lemma AppendMeaning<K, V>(s: seq<Entry<K, V>>, e: Entry<K, V>)
    requires !Has(s, e.key)
    ensures Meaning(s + [e]) == Ordered(Dict(s)[e.key := e.value], Keys(s) + [e.key])
    ensures e.key !in Dict(s)
    ensures DistinctKeys(s) ==> DistinctKeys(s + [e])
  {
    forall k: K
      ensures k in Dict(s + [e]) <==> k in Dict(s)[e.key := e.value]
      ensures k in Dict(s + [e]) ==> Dict(s + [e])[k] == Dict(s)[e.key := e.value][k]
    {
      AppendEntry(s, e, k);
    }
    assert Dict(s + [e]) == Dict(s)[e.key := e.value];
    AppendKeys(s, e);
    InDictIff(s, e.key);
  }

  lemma {:induction false} PositionAppend<K, V>(s: seq<Entry<K, V>>, e: Entry<K, V>, key: K)
    ensures Position(s + [e], key) == if Has(s, key) || e.key == key then Position(s, key) else |s| + 1
  {
    if s != [] && s[0].key != key {
      assert (s + [e])[1..] == s[1..] + [e];
      PositionAppend(s[1..], e, key);
    }
  }

  lemma AssignMeaning<K, V>(s: seq<Entry<K, V>>, key: K, value: V)
    requires DistinctKeys(s) && Has(s, key)
    ensures var s' := s[Position(s, key) := Entry(key, value)];
            DistinctKeys(s') && Meaning(s') == Ordered(Dict(s)[key := value], Keys(s))
  {
    AssignKeepsKeys(s, Position(s, key), Entry(key, value));
    AssignDict(s, key, value);
  }

  lemma AssignKeepsKeys<K, V>(s: seq<Entry<K, V>>, i: nat, e: Entry<K, V>)
    requires DistinctKeys(s) && i < |s| && s[i].key == e.key
    ensures DistinctKeys(s[i := e]) && Keys(s[i := e]) == Keys(s)
  {
    assert forall j | 0 <= j < |s| :: Keys(s[i := e])[j] == Keys(s)[j];
  }

  lemma AssignDict<K, V>(s: seq<Entry<K, V>>, key: K, value: V)
    requires DistinctKeys(s) && Has(s, key)
    ensures Dict(s[Position(s, key) := Entry(key, value)]) == Dict(s)[key := value]
  {
    var d, d' := Dict(s)[key := value], Dict(s[Position(s, key) := Entry(key, value)]);
    forall k
      ensures k in d' <==> k in d
      ensures k in d' ==> d'[k] == d[k]
    {
      AssignedAt(s, key, value, k);
    }
  }

  lemma AssignedAt<K, V>(s: seq<Entry<K, V>>, key: K, value: V, k: K)
    requires DistinctKeys(s) && Has(s, key)
    ensures var d, d' := Dict(s)[key := value], Dict(s[Position(s, key) := Entry(key, value)]);
            && (k in d' <==> k in d)
            && (k in d' ==> d'[k] == d[k])
  {
    var s' := s[Position(s, key) := Entry(key, value)];
    SamePosition(s, s', k);
    InDictIff(s, k);
    InDictIff(s', k);
  }

  lemma SamePosition<K, V>(s: seq<Entry<K, V>>, s': seq<Entry<K, V>>, key: K)
    requires |s'| == |s| && forall i | 0 <= i < |s| :: s'[i].key == s[i].key
    ensures Position(s', key) == Position(s, key)
  {
  }

  lemma SpliceMeaning<K, V>(s: seq<Entry<K, V>>, first: nat, last: nat)
    requires DistinctKeys(s) && first <= last <= |s|
    ensures DistinctKeys(Spliced(s, first, last))
    ensures Meaning(Spliced(s, first, last)) ==
            Ordered(Dict(s) - Elements(Keys(s)[first..last]), Spliced(Keys(s), first, last))
  {
    var r := Spliced(s, first, last);
    var gone := Elements(Keys(s)[first..last]);
    forall k
      ensures k in Dict(r) <==> k in Dict(s) && k !in gone
      ensures k in Dict(r) ==> Dict(r)[k] == Dict(s)[k]
    {
      InDictIff(s, k);
      InDictIff(r, k);
      SplicePosition(s, first, last, k);
    }
    assert Keys(r) == Spliced(Keys(s), first, last);
  }

  lemma KeysAmong<K, V>(s: seq<Entry<K, V>>, first: nat, last: nat, key: K)
    requires DistinctKeys(s) && first <= last <= |s|
    ensures key in Keys(s)[first..last] <==> first <= Position(s, key) < last
  {
    var p := Position(s, key);
    if first <= p < last {
      assert Keys(s)[first..last][p - first] == key;
    }
    if key in Keys(s)[first..last] {
      var i :| first <= i < last && Keys(s)[i] == key;
      PositionIff(s, key, i);
    }
  }

  lemma SpliceDistinct<K, V>(s: seq<Entry<K, V>>, first: nat, last: nat)
    requires DistinctKeys(s) && first <= last <= |s|
    ensures DistinctKeys(Spliced(s, first, last))
  {
  }

  /** The entry at position i after the splice is the one at this position before. */
  function Origin(first: nat, last: nat, i: nat): nat
    requires first <= last
  {
    if i < first then i else i + (last - first)
  }

  lemma SplicePosition<K, V>(s: seq<Entry<K, V>>, first: nat, last: nat, key: K)
    requires DistinctKeys(s) && first <= last <= |s|
    ensures var r := Spliced(s, first, last);
            && (Has(r, key) <==> Has(s, key) && key !in Keys(s)[first..last])
            && (Has(r, key) ==> r[Position(r, key)] == s[Position(s, key)])
  {
    var r := Spliced(s, first, last);
    KeysAmong(s, first, last, key);
    var p := Position(s, key);
    if p < |s| && !(first <= p < last) {
      var i := if p < first then p else p - (last - first);
      assert r[i] == s[p];
      SplicedHas(s, first, last, key, i);
    } else if Has(r, key) {
      SplicedHas(s, first, last, key, Position(r, key));
    }
  }

  lemma SplicedHas<K, V>(s: seq<Entry<K, V>>, first: nat, last: nat, key: K, i: nat)
    requires DistinctKeys(s) && first <= last <= |s| && i < |Spliced(s, first, last)|
    requires Spliced(s, first, last)[i].key == key
    ensures Position(Spliced(s, first, last), key) == i && Position(s, key) == Origin(first, last, i)
  {
    SpliceDistinct(s, first, last);
    PositionIff(Spliced(s, first, last), key, i);
    PositionIff(s, key, Origin(first, last, i));
  }

  lemma {:induction false} WithoutAbsent<K>(order: seq<K>, key: K)
    requires key !in order
    ensures Without(order, key) == order
  {
    if order != [] {
      WithoutAbsent(order[1..], key);
    }
  }

  /** Dropping a key from duplicate-free order takes out its one place. */
  lemma {:induction false} WithoutIsSplice<K>(order: seq<K>, p: nat)
    requires p < |order| && forall i, j | 0 <= i < j < |order| :: order[i] != order[j]
    ensures Without(order, order[p]) == Spliced(order, p, p + 1)
  {
    if p == 0 {
      WithoutAbsent(order[1..], order[0]);
    } else {
      WithoutIsSplice(order[1..], p - 1);
      assert order[1..][p - 1] == order[p] && order[0] != order[p];
      assert Spliced(order, p, p + 1) == [order[0]] + Spliced(order[1..], p - 1, p);
    }
  }

  /** One operation on the vector is the same operation on the map and its order. */
  lemma ApplyRefines<K, V>(s: seq<Entry<K, V>>, op: Op<K, V>, initial: V)
    requires DistinctKeys(s) && Legal(s, op)
    ensures LegalFor(Meaning(s), op)
    ensures DistinctKeys(Apply(s, op, initial))
    ensures Meaning(Apply(s, op, initial)) == Performed(Meaning(s), op, initial)
  {
    match op
    case Emplace(key, value) =>
      InDictIff(s, key);
      if !Has(s, key) {
        AppendMeaning(s, Entry(key, value));
      }
    case Subscript(key) =>
      InDictIff(s, key);
      if !Has(s, key) {
        AppendMeaning(s, Entry(key, initial));
      }
    case Assign(key, value) =>
      InDictIff(s, key);
      AssignMeaning(s, key, value);
    case EraseKey(key) => EraseKeyRefines(s, key);
    case EraseRange(first, last) => SpliceMeaning(s, first, last);
  }

  /** What is under one key after an operation, told from what was there before. */
  lemma LookupAfterOp<K, V>(s: seq<Entry<K, V>>, op: Op<K, V>, initial: V, k: K)
    requires DistinctKeys(s) && Legal(s, op)
    ensures var d, d' := Dict(s), Dict(Apply(s, op, initial));
            match op
            case Emplace(key, value) =>
              (k in d' <==> k in d || k == key) && (k in d' ==> d'[k] == if k in d then d[k] else value)
            case Subscript(key) =>
              (k in d' <==> k in d || k == key) && (k in d' ==> d'[k] == if k in d then d[k] else initial)
            case Assign(key, value) =>
              (k in d' <==> k in d) && (k in d' ==> d'[k] == if k == key then value else d[k])
            case EraseKey(key) => (k in d' <==> k in d && k != key) && (k in d' ==> d'[k] == d[k])
            case EraseRange(first, last) =>
              (k in d' <==> k in d && k !in Keys(s)[first..last]) && (k in d' ==> d'[k] == d[k])
  {
    ApplyRefines(s, op, initial);
  }

  /** Keys keep their order: a new one comes last, the others never change places. */
  lemma OrderAfterOp<K, V>(s: seq<Entry<K, V>>, op: Op<K, V>, initial: V)
    requires DistinctKeys(s) && Legal(s, op)
    ensures var ks, ks' := Keys(s), Keys(Apply(s, op, initial));
            match op
            case Emplace(key, _) => ks' == ks + if key in ks then [] else [key]
            case Subscript(key) => ks' == ks + if key in ks then [] else [key]
            case Assign(_, _) => ks' == ks
            case EraseKey(key) =>
              if key in ks then exists i :: 0 <= i < |ks| && ks[i] == key && ks' == ks[..i] + ks[i + 1..] else ks' == ks
            case EraseRange(first, last) => ks' == ks[..first] + ks[last..]
  {
    ApplyRefines(s, op, initial);
    if !op.EraseRange? {
      InDictIff(s, op.key);
      if op.EraseKey? && op.key in Keys(s) {
        var i := Position(s, op.key);
        WithoutIsSplice(Keys(s), i);
        assert Keys(s)[i] == op.key;
      }
    }
  }

  lemma KeysDistinct<K, V>(s: seq<Entry<K, V>>)
    requires DistinctKeys(s)
    ensures forall i, j | 0 <= i < j < |Keys(s)| :: Keys(s)[i] != Keys(s)[j]
  {
  }

  lemma EraseKeyRefines<K, V>(s: seq<Entry<K, V>>, key: K)
    requires DistinctKeys(s)
    ensures var p := Position(s, key);
            var r := if Has(s, key) then Spliced(s, p, p + 1) else s;
            DistinctKeys(r) && Meaning(r) == Ordered(Dict(s) - {key}, Without(Keys(s), key))
  {
    InDictIff(s, key);
    if Has(s, key) {
      var p := Position(s, key);
      assert Keys(s)[p] == key;
      KeysDistinct(s);
      WithoutIsSplice(Keys(s), p);
      SpliceMeaning(s, p, p + 1);
      assert Keys(s)[p..p + 1] == [key] && Elements([key]) == {key};
    } else {
      WithoutAbsent(Keys(s), key);
      assert Dict(s) - {key} == Dict(s);
    }
  }

  // ---------------------------------------------------------------- whole sequences of operations

  predicate LegalRun<K(==), V>(s: seq<Entry<K, V>>, ops: seq<Op<K, V>>, initial: V)
    decreases |ops|
  {
    ops == [] || (Legal(s, ops[0]) && LegalRun(Apply(s, ops[0], initial), ops[1..], initial))
  }

  function RunOps<K(==), V>(s: seq<Entry<K, V>>, ops: seq<Op<K, V>>, initial: V): seq<Entry<K, V>>
    requires LegalRun(s, ops, initial)
    decreases |ops|
  {
    if ops == [] then s else RunOps(Apply(s, ops[0], initial), ops[1..], initial)
  }

  predicate LegalRunFor<K(==), V>(a: Ordered<K, V>, ops: seq<Op<K, V>>, initial: V)
    decreases |ops|
  {
    ops == [] || (LegalFor(a, ops[0]) && LegalRunFor(Performed(a, ops[0], initial), ops[1..], initial))
  }

  function Performance<K(==), V>(a: Ordered<K, V>, ops: seq<Op<K, V>>, initial: V): Ordered<K, V>
    requires LegalRunFor(a, ops, initial)
    decreases |ops|
  {
    if ops == [] then a else Performance(Performed(a, ops[0], initial), ops[1..], initial)
  }

  lemma {:induction false} RunRefines<K, V>(s: seq<Entry<K, V>>, ops: seq<Op<K, V>>, initial: V)
    requires DistinctKeys(s) && LegalRun(s, ops, initial)
    ensures DistinctKeys(RunOps(s, ops, initial))
    ensures LegalRunFor(Meaning(s), ops, initial)
    ensures Meaning(RunOps(s, ops, initial)) == Performance(Meaning(s), ops, initial)
    decreases |ops|
  {
    if ops != [] {
      ApplyRefines(s, ops[0], initial);
      RunRefines(Apply(s, ops[0], initial), ops[1..], initial);
    }
  }

  /** Every legal sequence of operations on an empty vector keeps keys unique and refines the ordered map. */
  lemma EveryRunRefinesOrderedMap<K, V>(ops: seq<Op<K, V>>, initial: V)
    requires LegalRun([], ops, initial)
    ensures DistinctKeys(RunOps([], ops, initial))
    ensures LegalRunFor(Ordered(map[], []), ops, initial)
    ensures Meaning(RunOps([], ops, initial)) == Performance(Ordered(map[], []), ops, initial)
  {
    var s: seq<Entry<K, V>> := [];
    assert Meaning(s) == Ordered(map[], []);
    RunRefines(s, ops, initial);
  }
}
