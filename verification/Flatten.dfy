/** The prefix window of the routing key: a bounded, deterministic flattening of parsed JSON
    (cacheroute/cacheroute.go). */
module Flatten {
  import opened Seqs
  import opened Framing

  const PREFIX_WINDOW_CAP: int := 1024

  /** A parsed JSON value. Numbers carry their rendered text; Opaque is any other dynamic type, with
      the text of its String method if it has one. */
  datatype Value =
    | Null
    | Str(text: Bytes)
    | Bool(b: bool)
    | Num(rendered: Bytes)
    | Arr(items: seq<Value>)
    | Obj(fields: map<Bytes, Value>)
    | Opaque(printed: Option<Bytes>)

  // ---- Keys in sorted order ------------------------------------------------------------

  ghost predicate Ascending(keys: seq<Bytes>) {
    forall i, j :: 0 <= i < j < |keys| ==> Less(keys[i], keys[j])
  }

  function InsertKey(k: Bytes, keys: seq<Bytes>): seq<Bytes> {
    if keys == [] then [k]
    else if Less(keys[0], k) then [keys[0]] + InsertKey(k, keys[1..])
    else [k] + keys
  }

  lemma {:induction false} InsertKeyOk(k: Bytes, keys: seq<Bytes>)
    requires Ascending(keys) && k !in keys
    ensures Ascending(InsertKey(k, keys))
    ensures forall x :: x in InsertKey(k, keys) <==> x == k || x in keys
  {
    if keys != [] {
      var first, rest := keys[0], keys[1..];
      assert keys == [first] + rest;
      if Less(first, k) {
        InsertKeyOk(k, rest);
        var tail := InsertKey(k, rest);
        forall j | 0 <= j < |tail| ensures Less(first, tail[j]) {
          assert tail[j] in tail;
        }
      } else {
        LessTotal(first, k);
        forall j | 0 <= j < |keys| ensures Less(k, keys[j]) {
          if j > 0 { LessTransitive(k, first, keys[j]); }
        }
      }
    }
  }

  /** The one ascending arrangement of a set of keys (see AscendingIsUnique). */
  ghost function SortedKeys(ks: set<Bytes>): seq<Bytes> {
    if ks == {} then []
    else
      var k :| k in ks;
      InsertKey(k, SortedKeys(ks - {k}))
  }

  lemma {:induction false} SortedKeysOk(ks: set<Bytes>)
    ensures Ascending(SortedKeys(ks)) && forall x :: x in SortedKeys(ks) <==> x in ks
  {
    if ks != {} {
      var k :| k in ks && SortedKeys(ks) == InsertKey(k, SortedKeys(ks - {k}));
      SortedKeysOk(ks - {k});
      InsertKeyOk(k, SortedKeys(ks - {k}));
    }
  }

  lemma AscendingIsUnique(a: seq<Bytes>, b: seq<Bytes>)
    requires Ascending(a) && Ascending(b) && forall x :: x in a <==> x in b
    ensures a == b
  {
    forall x: Bytes, y: Bytes ensures !(Less(x, y) && Less(y, x)) {
      if x == y { LessIrreflexive(x); } else { LessTotal(x, y); }
    }
    hide Less;
    ArrangementIsUnique((x: Bytes, y: Bytes) => Less(x, y), a, b);
  }

  /** sortedKeys, collecting the map's keys in whatever order it yields them. */
  method SortKeys(fields: map<Bytes, Value>) returns (keys: seq<Bytes>)
    ensures keys == SortedKeys(fields.Keys)
  {
    keys := [];
    var todo := fields.Keys;
    while todo != {}
      invariant todo <= fields.Keys && Ascending(keys)
      invariant forall x :: x in keys <==> x in fields && x !in todo
    {
      var k :| k in todo;
      InsertKeyOk(k, keys);
      keys := InsertKey(k, keys);
      todo := todo - {k};
    }
    SortedKeysOk(fields.Keys);
    AscendingIsUnique(keys, SortedKeys(fields.Keys));
  }

  // ---- The unbounded flattening ------------------------------------------------------------

  function BoolText(b: bool): Bytes { if b then Codes("true") else Codes("false") }

  /** Every key and leaf of v, in traversal order. */
  ghost function Leaves(v: Value): seq<Bytes>
    decreases v, 1
  {
    match v
    case Null => []
    case Str(s) => [s]
    case Bool(b) => [BoolText(b)]
    case Num(s) => [s]
    case Arr(items) => ItemLeaves(items)
    case Obj(fields) =>
      SortedKeysOk(fields.Keys);
      FieldLeaves(v, SortedKeys(fields.Keys))
    case Opaque(printed) => if printed.Some? then [printed.value] else []
  }

  ghost function ItemLeaves(items: seq<Value>): seq<Bytes>
    decreases items, |items|
  {
    if items == [] then [] else ItemLeaves(items[..|items| - 1]) + Leaves(items[|items| - 1])
  }

  ghost function FieldLeaves(v: Value, keys: seq<Bytes>): seq<Bytes>
    requires v.Obj? && forall k :: k in keys ==> k in v.fields
    decreases v, 0, |keys|
  {
    if keys == [] then []
    else
      var k := keys[|keys| - 1];
      assert k in keys;
      FieldLeaves(v, keys[..|keys| - 1]) + ([k] + Leaves(v.fields[k]))
  }

  // ---- What is listed ----------------------------------------------------------------------

  /** A scalar lists its text. */
  lemma LeavesOfScalar(s: Bytes, b: bool)
    ensures Leaves(Null) == [] && Leaves(Str(s)) == [s] && Leaves(Num(s)) == [s]
    ensures Leaves(Bool(b)) == [if b then Codes("true") else Codes("false")]
    ensures Leaves(Opaque(Some(s))) == [s] && Leaves(Opaque(None)) == []
  {}

  lemma {:induction false} ItemsConcat(a: seq<Value>, b: seq<Value>)
    ensures ItemLeaves(a + b) == ItemLeaves(a) + ItemLeaves(b)
    decreases |b|
  {
    if b == [] {
      assert a + b == a;
    } else {
      var last := |b| - 1;
      assert (a + b)[..|a + b| - 1] == a + b[..last];
      ItemsConcat(a, b[..last]);
    }
  }

  /** An array lists its elements in order. */
  lemma LeavesOfArray(first: Value, rest: seq<Value>)
    ensures Leaves(Arr([first] + rest)) == Leaves(first) + Leaves(Arr(rest))
  {
    ItemsConcat([first], rest);
    assert [first][..0] == [] && ItemLeaves([first]) == [] + Leaves(first);
  }

  lemma {:induction false} FieldsConcat(v: Value, a: seq<Bytes>, b: seq<Bytes>)
    requires v.Obj? && (forall k :: k in a ==> k in v.fields) && (forall k :: k in b ==> k in v.fields)
    ensures FieldLeaves(v, a + b) == FieldLeaves(v, a) + FieldLeaves(v, b)
    decreases |b|
  {
    if b == [] {
      assert a + b == a;
    } else {
      var last := |b| - 1;
      assert (a + b)[..|a + b| - 1] == a + b[..last];
      FieldsConcat(v, a, b[..last]);
    }
  }

  /** Fields that agree on the keys list alike. */
  lemma {:induction false} FieldsSame(v: Value, w: Value, keys: seq<Bytes>)
    requires v.Obj? && w.Obj? && forall k :: k in keys ==> k in v.fields && k in w.fields && v.fields[k] == w.fields[k]
    ensures FieldLeaves(v, keys) == FieldLeaves(w, keys)
  {
    if keys != [] {
      assert keys[|keys| - 1] in keys;
      FieldsSame(v, w, keys[..|keys| - 1]);
    }
  }

  lemma OneField(v: Value, k: Bytes)
    requires v.Obj? && k in v.fields
    ensures FieldLeaves(v, [k]) == [k] + Leaves(v.fields[k])
  {
    assert [k][..0] == [];
  }

  lemma LeastKeyFirst(ks: set<Bytes>, k: Bytes)
    requires k in ks && forall other :: other in ks && other != k ==> Less(k, other)
    ensures SortedKeys(ks) == [k] + SortedKeys(ks - {k})
  {
    hide SortedKeys;
    SortedKeysOk(ks);
    SortedKeysOk(ks - {k});
    var rest := SortedKeys(ks - {k});
    assert forall i :: 0 <= i < |rest| ==> rest[i] in rest;
    AscendingIsUnique(SortedKeys(ks), [k] + rest);
  }

  /** An object lists its least key, that key's value, and then the rest. */
  lemma LeavesOfObject(fields: map<Bytes, Value>, k: Bytes)
    requires k in fields && forall other :: other in fields && other != k ==> Less(k, other)
    ensures Leaves(Obj(fields)) == [k] + Leaves(fields[k]) + Leaves(Obj(fields - {k}))
  {
    var v, w := Obj(fields), Obj(fields - {k});
    var rest := SortedKeys(w.fields.Keys);
    assert w.fields.Keys == fields.Keys - {k};
    LeastKeyFirst(fields.Keys, k);
    SortedKeysOk(fields.Keys);
    SortedKeysOk(w.fields.Keys);
    assert Leaves(v) == FieldLeaves(v, [k] + rest) && Leaves(w) == FieldLeaves(w, rest);
    hide SortedKeys, Leaves, FieldLeaves;
    FieldsConcat(v, [k], rest);
    OneField(v, k);
    FieldsSame(v, w, rest);
  }

  /** A place inside a value: an element of an array, or a field of an object. */
  datatype Place = At(i: nat) | In(k: Bytes)

  predicate Has(v: Value, path: seq<Place>)
    decreases |path|
  {
    path == [] ||
    match path[0]
    case At(i) => v.Arr? && i < |v.items| && Has(v.items[i], path[1..])
    case In(k) => v.Obj? && k in v.fields && Has(v.fields[k], path[1..])
  }

  function Get(v: Value, path: seq<Place>): Value
    requires Has(v, path)
    decreases |path|
  {
    if path == [] then v
    else match path[0] case At(i) => Get(v.items[i], path[1..]) case In(k) => Get(v.fields[k], path[1..])
  }

  function Replace(v: Value, path: seq<Place>, w: Value): Value
    requires Has(v, path)
    decreases |path|
  {
    if path == [] then w
    else
      match path[0]
      case At(i) => Arr(v.items[i := Replace(v.items[i], path[1..], w)])
      case In(k) => Obj(v.fields[k := Replace(v.fields[k], path[1..], w)])
  }

  /** The leaves of an array around its i-th element. */
  lemma AroundItem(items: seq<Value>, i: nat)
    requires i < |items|
    ensures Leaves(Arr(items)) == ItemLeaves(items[..i]) + Leaves(items[i]) + ItemLeaves(items[i + 1..])
  {
    assert items == items[..i] + ([items[i]] + items[i + 1..]);
    ItemsConcat(items[..i], [items[i]] + items[i + 1..]);
    LeavesOfArray(items[i], items[i + 1..]);
  }

  /** The leaves of an object around the value of its key at position j. */
  lemma AroundField(v: Value, keys: seq<Bytes>, j: nat)
    requires v.Obj? && (forall k :: k in keys ==> k in v.fields) && j < |keys|
    ensures forall k :: k in keys[..j] ==> k in keys
    ensures forall k :: k in keys[j + 1..] ==> k in keys
    ensures keys[j] in keys
    ensures FieldLeaves(v, keys) ==
            FieldLeaves(v, keys[..j]) + [keys[j]] + Leaves(v.fields[keys[j]]) + FieldLeaves(v, keys[j + 1..])
  {
    hide FieldLeaves, Leaves;
    assert keys == keys[..j] + ([keys[j]] + keys[j + 1..]) && keys[j] in keys;
    FieldsConcat(v, keys[..j], [keys[j]] + keys[j + 1..]);
    FieldsConcat(v, [keys[j]], keys[j + 1..]);
    OneField(v, keys[j]);
  }

  /** Replacing any part of a value replaces exactly that part's leaves: those before and after stay. */
  lemma {:induction false} ReplaceShows(v: Value, path: seq<Place>, w: Value) returns (before: seq<Bytes>, after: seq<Bytes>)
    requires Has(v, path)
    ensures Leaves(v) == before + Leaves(Get(v, path)) + after
    ensures Leaves(Replace(v, path, w)) == before + Leaves(w) + after
    decreases |path|
  {
    hide Leaves, ItemLeaves, FieldLeaves, Replace, Get;
    ReplaceStep(v, path, w);
    before, after := [], [];
    if path == [] {
      assert [] + Leaves(v) + [] == Leaves(v) && [] + Leaves(w) + [] == Leaves(w);
    } else {
      var part := if path[0].At? then v.items[path[0].i] else v.fields[path[0].k];
      var pre, post := ReplaceShows(part, path[1..], w);
      if path[0].At? {
        before, after := ItemShows(v.items, path[0].i, Replace(part, path[1..], w));
      } else {
        before, after := FieldShows(v, path[0].k, Replace(part, path[1..], w));
      }
      Nested(before, pre, Leaves(Get(v, path)), post, after);
      Nested(before, pre, Leaves(w), post, after);
      before, after := before + pre, post + after;
    }
  }

  lemma ReplaceStep(v: Value, path: seq<Place>, w: Value)
    requires Has(v, path)
    ensures path == [] ==> Get(v, path) == v && Replace(v, path, w) == w
    ensures path != [] && path[0].At? ==>
      v.Arr? && path[0].i < |v.items| && Has(v.items[path[0].i], path[1..]) &&
      Get(v, path) == Get(v.items[path[0].i], path[1..]) &&
      Replace(v, path, w) == Arr(v.items[path[0].i := Replace(v.items[path[0].i], path[1..], w)])
    ensures path != [] && path[0].In? ==>
      v.Obj? && path[0].k in v.fields && Has(v.fields[path[0].k], path[1..]) &&
      Get(v, path) == Get(v.fields[path[0].k], path[1..]) &&
      Replace(v, path, w) == Obj(v.fields[path[0].k := Replace(v.fields[path[0].k], path[1..], w)])
  {}

  lemma Nested(a: seq<Bytes>, b: seq<Bytes>, c: seq<Bytes>, d: seq<Bytes>, e: seq<Bytes>)
    ensures a + (b + c + d) + e == (a + b) + c + (d + e)
  {}

  /** The leaves before and after one element of an array. */
  lemma ItemShows(items: seq<Value>, i: nat, w: Value) returns (before: seq<Bytes>, after: seq<Bytes>)
    requires i < |items|
    ensures Leaves(Arr(items)) == before + Leaves(items[i]) + after
    ensures Leaves(Arr(items[i := w])) == before + Leaves(w) + after
  {
    hide Leaves, ItemLeaves;
    AroundItem(items, i);
    AroundItem(items[i := w], i);
    assert items[i := w][..i] == items[..i] && items[i := w][i + 1..] == items[i + 1..];
    before, after := ItemLeaves(items[..i]), ItemLeaves(items[i + 1..]);
  }

  /** The same for one field of an object. */
  lemma FieldShows(v: Value, k: Bytes, w: Value) returns (before: seq<Bytes>, after: seq<Bytes>)
    requires v.Obj? && k in v.fields
    ensures Leaves(v) == before + Leaves(v.fields[k]) + after
    ensures Leaves(Obj(v.fields[k := w])) == before + Leaves(w) + after
  {
    var v' := Obj(v.fields[k := w]);
    var keys := SortedKeys(v.fields.Keys);
    SortedKeysOk(v.fields.Keys);
    assert v'.fields.Keys == v.fields.Keys;
    assert Leaves(v) == FieldLeaves(v, keys) && Leaves(v') == FieldLeaves(v', keys);
    hide Leaves, SortedKeys, FieldLeaves;
    var j :| 0 <= j < |keys| && keys[j] == k;
    AroundField(v, keys, j);
    AroundField(v', keys, j);
    AscendingApart(keys, j);
    FieldsSame(v, v', keys[..j]);
    FieldsSame(v, v', keys[j + 1..]);
    before, after := FieldLeaves(v, keys[..j]) + [k], FieldLeaves(v, keys[j + 1..]);
  }

  lemma AscendingApart(keys: seq<Bytes>, j: nat)
    requires Ascending(keys) && j < |keys|
    ensures keys[j] !in keys[..j] && keys[j] !in keys[j + 1..]
  {
    LessIrreflexive(keys[j]);
  }

  /** In particular a value changes its leaves exactly if the part does. */
  lemma ReplaceChanges(v: Value, path: seq<Place>, w: Value)
    requires Has(v, path)
    ensures Leaves(Replace(v, path, w)) == Leaves(v) <==> Leaves(w) == Leaves(Get(v, path))
  {
    hide Leaves;
    var before, after := ReplaceShows(v, path, w);
    var a, b := Leaves(Get(v, path)), Leaves(w);
    if before + a + after == before + b + after {
      assert |a| == |b|;
      assert a == (before + a + after)[|before|..|before| + |a|];
      assert b == (before + b + after)[|before|..|before| + |b|];
    }
  }

  // ---- The bounded one ------------------------------------------------------------------------

  /** appendFramed: lp(s), with s truncated so that the frame fits the budget. */
  function AppendFramed(buf: Bytes, s: Bytes, budget: int): Bytes
    requires budget < LIMIT
  {
    var room := budget - |buf| - 4;
    if room <= 0 then buf
    else
      var visible := if |s| > room then s[..room] else s;
      buf + Header(|visible|) + visible
  }

  function FoldFramed(buf: Bytes, leaves: seq<Bytes>, budget: int): Bytes
    requires budget < LIMIT
  {
    if leaves == [] then buf
    else AppendFramed(FoldFramed(buf, leaves[..|leaves| - 1], budget), leaves[|leaves| - 1], budget)
  }

  lemma {:induction false} FoldConcat(buf: Bytes, a: seq<Bytes>, b: seq<Bytes>, budget: int)
    requires budget < LIMIT
    ensures FoldFramed(buf, a + b, budget) == FoldFramed(FoldFramed(buf, a, budget), b, budget)
    decreases |b|
  {
    if b == [] {
      assert a + b == a;
    } else {
      var last := |b| - 1;
      assert (a + b)[..|a + b| - 1] == a + b[..last];
      FoldConcat(buf, a, b[..last], budget);
    }
  }

  /** Earlier output is a prefix of later output, and the budget is never exceeded. */
  lemma {:induction false} FoldGrows(buf: Bytes, leaves: seq<Bytes>, budget: int)
    requires budget < LIMIT
    ensures buf <= FoldFramed(buf, leaves, budget)
    ensures |FoldFramed(buf, leaves, budget)| <= if |buf| < budget then budget else |buf|
  {
    if leaves != [] { FoldGrows(buf, leaves[..|leaves| - 1], budget); }
  }

  /** Once no frame fits, nothing that follows changes the bytes. */
  lemma {:induction false} Saturated(buf: Bytes, leaves: seq<Bytes>, budget: int)
    requires budget < LIMIT && |buf| + 4 >= budget
    ensures FoldFramed(buf, leaves, budget) == buf
  {
    if leaves != [] { Saturated(buf, leaves[..|leaves| - 1], budget); }
  }

  /** appendFlattened with its early exits is the fold over the unbounded flattening. */
  method AppendFlattened(buf: Bytes, v: Value, budget: int) returns (r: Bytes)
    requires budget < LIMIT
    ensures r == FoldFramed(buf, Leaves(v), budget)
    decreases v, 1
  {
    if |buf| >= budget {
      Saturated(buf, Leaves(v), budget);
      return buf;
    }
    match v {
      case Null => r := buf;
      case Str(s) => r := AppendLeaf(buf, s, budget);
      case Bool(b) => r := AppendLeaf(buf, BoolText(b), budget);
      case Num(s) => r := AppendLeaf(buf, s, budget);
      case Opaque(printed) => if printed.Some? { r := AppendLeaf(buf, printed.value, budget); } else { r := buf; }
      case Arr(items) => r := AppendItems(buf, items, budget);
      case Obj(fields) => r := AppendFields(buf, v, budget);
    }
  }

  /** The loop over an array's elements, which stops at the budget. */
  method AppendItems(buf: Bytes, items: seq<Value>, budget: int) returns (r: Bytes)
    requires budget < LIMIT
    ensures r == FoldFramed(buf, ItemLeaves(items), budget)
    decreases items, 0
  {
    hide FoldFramed;
    FoldNothing(buf, budget);
    r := buf;
    for i := 0 to |items|
      invariant r == FoldFramed(buf, ItemLeaves(items[..i]), budget)
    {
      ItemsSplit(items, i);
      if |r| >= budget {
        FoldConcat(buf, ItemLeaves(items[..i]), RestLeaves(items, i), budget);
        Saturated(r, RestLeaves(items, i), budget);
        return;
      }
      FoldConcat(buf, ItemLeaves(items[..i]), Leaves(items[i]), budget);
      r := AppendFlattened(r, items[i], budget);
    }
    assert items[..|items|] == items;
  }

  /** The loop over an object's fields in key order. */
  method AppendFields(buf: Bytes, v: Value, budget: int) returns (r: Bytes)
    requires budget < LIMIT && v.Obj?
    ensures r == FoldFramed(buf, Leaves(v), budget)
    decreases v, 0
  {
    hide FoldFramed, Leaves, FieldLeaves, SortedKeys;
    FoldNothing(buf, budget);
    var keys := SortKeys(v.fields);
    FieldsStart(v);
    r := buf;
    assert keys[..0] == [];
    for i := 0 to |keys|
      invariant r == FoldFramed(buf, FieldLeaves(v, keys[..i]), budget)
    {
      var k := keys[i];
      if |r| >= budget {
        FieldsSplit(v, keys, i, buf, budget);
        return;
      }
      FieldsConcat(v, keys[..i], [k]);
      OneField(v, k);
      assert keys[..i + 1] == keys[..i] + [k];
      FoldConcat(buf, FieldLeaves(v, keys[..i]), [k] + Leaves(v.fields[k]), budget);
      FoldConcat(r, [k], Leaves(v.fields[k]), budget);
      r := AppendLeaf(r, k, budget);
      r := AppendFlattened(r, v.fields[k], budget);
    }
    assert keys[..|keys|] == keys;
  }

  lemma FieldsStart(v: Value)
    requires v.Obj?
    ensures forall k :: k in SortedKeys(v.fields.Keys) <==> k in v.fields
    ensures FieldLeaves(v, []) == [] && Leaves(v) == FieldLeaves(v, SortedKeys(v.fields.Keys))
  {
    SortedKeysOk(v.fields.Keys);
  }

  lemma FoldNothing(buf: Bytes, budget: int)
    requires budget < LIMIT
    ensures FoldFramed(buf, [], budget) == buf
  {}

  method AppendLeaf(buf: Bytes, s: Bytes, budget: int) returns (r: Bytes)
    requires budget < LIMIT
    ensures r == FoldFramed(buf, [s], budget)
  {
    assert [s][..0] == [];
    var room := budget - |buf| - 4;
    if room <= 0 { return buf; }
    var visible := s;
    if |s| > room { visible := s[..room]; }
    r := buf + Header(|visible|);
    r := r + visible;
  }

  /** The leaves an early exit leaves unvisited. */
  ghost function RestLeaves(items: seq<Value>, i: nat): (rest: seq<Bytes>)
    requires i <= |items|
    ensures ItemLeaves(items[..i]) + rest == ItemLeaves(items)
    decreases |items| - i
  {
    ItemsSplit(items, i);
    if i == |items| then [] else Leaves(items[i]) + RestLeaves(items, i + 1)
  }

  lemma ItemsSplit(items: seq<Value>, i: nat)
    requires i <= |items|
    ensures i < |items| ==> ItemLeaves(items[..i + 1]) == ItemLeaves(items[..i]) + Leaves(items[i])
    ensures i == |items| ==> items[..i] == items
  {
    if i < |items| { assert items[..i + 1][..i] == items[..i]; }
  }

  lemma {:induction false} FieldsSplit(v: Value, keys: seq<Bytes>, i: nat, buf: Bytes, budget: int)
    requires v.Obj? && (forall k :: k in keys ==> k in v.fields) && i <= |keys| && budget < LIMIT
    requires |FoldFramed(buf, FieldLeaves(v, keys[..i]), budget)| >= budget
    ensures FoldFramed(buf, FieldLeaves(v, keys), budget) == FoldFramed(buf, FieldLeaves(v, keys[..i]), budget)
    decreases |keys| - i
  {
    hide FoldFramed, Leaves;
    if i < |keys| {
      var more := [keys[i]] + Leaves(v.fields[keys[i]]);
      assert keys[..i + 1][..i] == keys[..i];
      FoldConcat(buf, FieldLeaves(v, keys[..i]), more, budget);
      Saturated(FoldFramed(buf, FieldLeaves(v, keys[..i]), budget), more, budget);
      FieldsSplit(v, keys, i + 1, buf, budget);
    } else {
      assert keys[..i] == keys;
    }
  }

  // ---- The window --------------------------------------------------------------------------------

  ghost function FlattenValue(v: Value, budget: int): Bytes
    requires budget < LIMIT
  {
    if budget <= 0 then [] else FoldFramed([], Leaves(v), budget)
  }

  /** The three prompt fields as deriveKey spends its window on them. */
  ghost function Window(tools: Value, system: Value, user: Value): (Bytes, Bytes, Bytes) {
    var a := FlattenValue(tools, PREFIX_WINDOW_CAP);
    FoldGrows([], Leaves(tools), PREFIX_WINDOW_CAP);
    var b := FlattenValue(system, PREFIX_WINDOW_CAP - |a|);
    var c := FlattenValue(user, PREFIX_WINDOW_CAP - |a| - |b|);
    (a, b, c)
  }

  /** Together they never exceed the window. */
  lemma WindowBounded(tools: Value, system: Value, user: Value)
    ensures var (a, b, c) := Window(tools, system, user); |a| + |b| + |c| <= 1024
  {
    hide Leaves, FoldFramed;
    var (a, b, c) := Window(tools, system, user);
    FoldGrows([], Leaves(tools), PREFIX_WINDOW_CAP);
    FoldGrows([], Leaves(system), PREFIX_WINDOW_CAP - |a|);
    FoldGrows([], Leaves(user), PREFIX_WINDOW_CAP - |a| - |b|);
  }

  /** Content beyond the window cannot change the bytes: two values whose leaves agree up to the
      point where the window is full flatten alike, whatever the overflowing leaf goes on to say
      and whatever follows it. */
  lemma BeyondTheWindow(p: seq<Bytes>, s: Bytes, t: Bytes, t': Bytes, x: seq<Bytes>, x': seq<Bytes>, budget: int)
    requires 0 <= budget < LIMIT && |FoldFramed([], p, budget)| + 4 + |s| >= budget
    ensures FoldFramed([], p + [s + t] + x, budget) == FoldFramed([], p + [s + t'] + x', budget)
  {
    var buf := FoldFramed([], p, budget);
    Truncates(buf, s, t, budget);
    Truncates(buf, s, t', budget);
    FoldConcat([], p, [s + t], budget);
    FoldConcat([], p, [s + t'], budget);
    FoldConcat([], p + [s + t], x, budget);
    FoldConcat([], p + [s + t'], x', budget);
    Saturated(FoldFramed(buf, [s + t], budget), x, budget);
    Saturated(FoldFramed(buf, [s + t'], budget), x', budget);
  }

  lemma Truncates(buf: Bytes, s: Bytes, t: Bytes, budget: int)
    requires 0 <= budget < LIMIT && |buf| + 4 + |s| >= budget
    ensures FoldFramed(buf, [s + t], budget) == FoldFramed(buf, [s], budget)
    ensures |FoldFramed(buf, [s + t], budget)| + 4 >= budget
  {
    assert [s + t][..0] == [] && [s][..0] == [];
    var room := budget - |buf| - 4;
    if room > 0 { assert (s + t)[..room] == s[..room]; }
  }

  /** Below the window nothing is lost: the bytes are the exact framing of the leaves, so two values
      flatten alike exactly when their keys and leaves agree. */
  lemma {:induction false} WithinTheWindow(leaves: seq<Bytes>, budget: int)
    requires Framable(leaves) && 0 <= |FrameAll(leaves)| < budget < LIMIT
    ensures FoldFramed([], leaves, budget) == FrameAll(leaves)
  {
    if leaves != [] {
      var init, last := leaves[..|leaves| - 1], leaves[|leaves| - 1];
      assert leaves == init + [last];
      assert Framable(init) && last in leaves;
      FrameAppend(init, last);
      WithinTheWindow(init, budget);
    }
  }

  lemma UntruncatedIsInjective(v: Value, w: Value, budget: int)
    requires Framable(Leaves(v)) && Framable(Leaves(w))
    requires |FrameAll(Leaves(v))| < budget < LIMIT && |FrameAll(Leaves(w))| < budget
    ensures FlattenValue(v, budget) == FlattenValue(w, budget) <==> Leaves(v) == Leaves(w)
  {
    WithinTheWindow(Leaves(v), budget);
    WithinTheWindow(Leaves(w), budget);
    ParseFrames(Leaves(v));
    ParseFrames(Leaves(w));
  }

  /** What the window shows of a list of leaves: as many as fit, the last one cut to the room left. */
  ghost function Visible(leaves: seq<Bytes>, budget: int): (r: seq<Bytes>)
    requires budget < LIMIT
    ensures Framable(r) && |r| <= |leaves|
  {
    if leaves == [] then []
    else
      var last := |leaves| - 1;
      var r := Visible(leaves[..last], budget);
      var room := budget - |FrameAll(r)| - 4;
      if room <= 0 then r else r + [if |leaves[last]| > room then leaves[last][..room] else leaves[last]]
  }

  /** The bounded bytes are the exact framing of what is visible. */
  lemma {:induction false} FoldShowsVisible(leaves: seq<Bytes>, budget: int)
    requires budget < LIMIT
    ensures FoldFramed([], leaves, budget) == FrameAll(Visible(leaves, budget))
  {
    if leaves != [] {
      var last := |leaves| - 1;
      FoldShowsVisible(leaves[..last], budget);
      var r := Visible(leaves[..last], budget);
      var room := budget - |FrameAll(r)| - 4;
      if room > 0 {
        FrameAppend(r, if |leaves[last]| > room then leaves[last][..room] else leaves[last]);
      }
    }
  }

  /** The window is used up. */
  ghost predicate Full(shown: seq<Bytes>, budget: int)
    requires Framable(shown)
  {
    |FrameAll(shown)| + 4 >= budget
  }

  /** shown is a prefix of the leaves, whole except that the last one shown may be cut, and something
      is left out only if the window is full. */
  ghost predicate Shows(shown: seq<Bytes>, leaves: seq<Bytes>, budget: int)
    requires Framable(shown)
  {
    |shown| <= |leaves| && (|shown| < |leaves| ==> Full(shown, budget)) &&
    forall i :: 0 <= i < |shown| ==>
      shown[i] == leaves[i] || (shown[i] <= leaves[i] && i == |shown| - 1 && Full(shown, budget))
  }

  lemma ShowsSkip(shown: seq<Bytes>, leaves: seq<Bytes>, leaf: Bytes, budget: int)
    requires Framable(shown) && Shows(shown, leaves, budget) && Full(shown, budget)
    ensures Shows(shown, leaves + [leaf], budget)
  {
    hide FrameAll;
  }

  lemma ShowsAdd(shown: seq<Bytes>, leaves: seq<Bytes>, leaf: Bytes, budget: int)
    requires Framable(shown) && Shows(shown, leaves, budget) && !Full(shown, budget) && budget < LIMIT
    ensures var room := budget - |FrameAll(shown)| - 4;
            var cut := if |leaf| > room then leaf[..room] else leaf;
            Framable(shown + [cut]) && Shows(shown + [cut], leaves + [leaf], budget)
  {
    hide FrameAll;
    var room := budget - |FrameAll(shown)| - 4;
    FrameAppend(shown, if |leaf| > room then leaf[..room] else leaf);
  }

  /** What is visible shows the leaves. */
  lemma {:induction false} VisibleShows(leaves: seq<Bytes>, budget: int)
    requires budget < LIMIT
    ensures Shows(Visible(leaves, budget), leaves, budget)
  {
    hide Shows, FrameAll, Framable;
    if leaves == [] {
      ShowsNothing(budget);
    } else {
      var init, leaf := leaves[..|leaves| - 1], leaves[|leaves| - 1];
      VisibleShows(init, budget);
      var shown := Visible(init, budget);
      assert init + [leaf] == leaves;
      if Full(shown, budget) { ShowsSkip(shown, init, leaf, budget); } else { ShowsAdd(shown, init, leaf, budget); }
    }
  }

  lemma ShowsNothing(budget: int)
    ensures Framable([]) && Shows([], [], budget)
  {}

  lemma SameFrames(a: seq<Bytes>, b: seq<Bytes>)
    requires Framable(a) && Framable(b)
    ensures FrameAll(a) == FrameAll(b) <==> a == b
  {
    ParseFrames(a);
    ParseFrames(b);
  }

  // ---- The routing key -----------------------------------------------------------------------------

  datatype KeyRequest = KeyRequest(
    secret: Bytes, salt: Bytes, cacheKey: Bytes, tools: Value, system: Value, user: Value)

  /** The fields deriveKey hashes, and the bytes that makes. */
  ghost function KeyFields(r: KeyRequest): seq<Bytes> {
    var w := Window(r.tools, r.system, r.user);
    [r.secret, r.salt, r.cacheKey, w.0, w.1, w.2]
  }

  ghost function KeyInput(r: KeyRequest): Option<Bytes> { Preimage(KEY_TAG, KeyFields(r)) }

  method FlattenWithin(v: Value, budget: int) returns (r: Bytes)
    requires budget < LIMIT
    ensures r == FlattenValue(v, budget)
  {
    if budget <= 0 { return []; }
    r := AppendFlattened([], v, budget);
  }

  method DeriveKeyInput(r: KeyRequest) returns (input: Option<Bytes>)
    ensures input == KeyInput(r)
  {
    var budget := PREFIX_WINDOW_CAP;
    var a := FlattenWithin(r.tools, budget);
    budget := budget - |a|;
    var b := FlattenWithin(r.system, budget);
    budget := budget - |b|;
    var c := FlattenWithin(r.user, budget);
    input := WriteFields(KEY_TAG, [r.secret, r.salt, r.cacheKey, a, b, c]);
  }

  /** The caller-supplied fields are within the framing limit. */
  predicate Keyable(r: KeyRequest) { |r.secret| < LIMIT && |r.salt| < LIMIT && |r.cacheKey| < LIMIT }

  lemma KeyFieldsFramable(r: KeyRequest)
    requires Keyable(r)
    ensures Framable(KeyFields(r))
  {
    WindowBounded(r.tools, r.system, r.user);
  }

  lemma SameSix(a: seq<Bytes>, b: seq<Bytes>)
    requires |a| == |b| == 6
    ensures a == b <==> a[0] == b[0] && a[1] == b[1] && a[2] == b[2] && a[3] == b[3] && a[4] == b[4] && a[5] == b[5]
  {}

  /** What the key sees of a request's prompt: tools first, then system, then user, each in the room
      the ones before it left. */
  ghost function Seen(r: KeyRequest): (seq<Bytes>, seq<Bytes>, seq<Bytes>) {
    var a := Visible(Leaves(r.tools), PREFIX_WINDOW_CAP);
    var b := Visible(Leaves(r.system), PREFIX_WINDOW_CAP - |FrameAll(a)|);
    (a, b, Visible(Leaves(r.user), PREFIX_WINDOW_CAP - |FrameAll(a)| - |FrameAll(b)|))
  }

  lemma FlattenShows(v: Value, budget: int)
    requires budget < LIMIT
    ensures FlattenValue(v, budget) == FrameAll(Visible(Leaves(v), budget))
  {
    FoldShowsVisible(Leaves(v), budget);
    if budget <= 0 { Saturated([], Leaves(v), budget); }
  }

  lemma WindowShows(r: KeyRequest)
    ensures var (a, b, c) := Seen(r);
            Framable(a) && Framable(b) && Framable(c) &&
            Window(r.tools, r.system, r.user) == (FrameAll(a), FrameAll(b), FrameAll(c))
  {
    hide FrameAll, Visible, FlattenValue;
    FlattenShows(r.tools, PREFIX_WINDOW_CAP);
    var a := Visible(Leaves(r.tools), PREFIX_WINDOW_CAP);
    FlattenShows(r.system, PREFIX_WINDOW_CAP - |FrameAll(a)|);
    var b := Visible(Leaves(r.system), PREFIX_WINDOW_CAP - |FrameAll(a)|);
    FlattenShows(r.user, PREFIX_WINDOW_CAP - |FrameAll(a)| - |FrameAll(b)|);
  }

  /** Two requests get the same key input if and only if secret, salt and cache key agree and so does
      what the window shows of their keys and leaves: content beyond the window cannot change the
      key, and content within it always does. */
  lemma KeyInputsAgreeExactly(r: KeyRequest, q: KeyRequest)
    requires Keyable(r) && Keyable(q)
    ensures KeyInput(r).Some?
    ensures KeyInput(r) == KeyInput(q) <==>
            r.secret == q.secret && r.salt == q.salt && r.cacheKey == q.cacheKey && Seen(r) == Seen(q)
  {
    hide Window, Seen, FrameAll;
    KeyFieldsFramable(r);
    KeyFieldsFramable(q);
    FramingIsInjective(KEY_TAG, KeyFields(r), KeyFields(q));
    SameSix(KeyFields(r), KeyFields(q));
    WindowShows(r);
    WindowShows(q);
    var (a, b, c) := Seen(r);
    var (a', b', c') := Seen(q);
    SameFrames(a, a');
    SameFrames(b, b');
    SameFrames(c, c');
  }

  /** In particular once the window is full: the rest of the field, and the fields after it, are free. */
  lemma BeyondTheWindowIsFree(r: KeyRequest, q: KeyRequest)
    requires Keyable(r) && r.secret == q.secret && r.salt == q.salt && r.cacheKey == q.cacheKey
    requires Visible(Leaves(r.tools), PREFIX_WINDOW_CAP) == Visible(Leaves(q.tools), PREFIX_WINDOW_CAP)
    requires Full(Visible(Leaves(r.tools), PREFIX_WINDOW_CAP), PREFIX_WINDOW_CAP)
    ensures KeyInput(r) == KeyInput(q)
  {
    var a := Visible(Leaves(r.tools), PREFIX_WINDOW_CAP);
    var left := PREFIX_WINDOW_CAP - |FrameAll(a)|;
    NothingVisible(Leaves(r.system), left);
    NothingVisible(Leaves(q.system), left);
    NothingVisible(Leaves(r.user), left);
    NothingVisible(Leaves(q.user), left);
    KeyInputsAgreeExactly(r, q);
  }

  lemma {:induction false} NothingVisible(leaves: seq<Bytes>, budget: int)
    requires budget <= 4
    ensures Visible(leaves, budget) == []
  {
    if leaves != [] { NothingVisible(leaves[..|leaves| - 1], budget); }
  }
}
