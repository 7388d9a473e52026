/**
 * `compare(data, template)`: match a JSON-like data tree against a template
 * tree and report the first mismatch with its path. Predicate leaves must
 * accept the data, primitive leaves must equal it, arrays and objects
 * recurse index by index and key by key; an object template whose `length`
 * is a valid array length is walked by index, as `lodash.forEach` does.
 */
module Compare {
  import opened Options
  import opened Text

  /** JavaScript primitives (NaN and floating point are not modelled). */
  datatype Prim = Undefined | Null | Bool(b: bool) | Num(n: int) | Str(s: string)

  /** Data: a primitive, an array or a plain object. */
  datatype Value = Atom(prim: Prim) | Arr(elems: seq<Value>) | Obj(fields: map<string, Value>)

  /**
   * Templates: a predicate (a function template, its result read as a
   * truth value), a primitive, an array of templates, or an object whose
   * entries are listed in the order `lodash.forEach` visits them. As the
   * own keys of a JavaScript object, the entries' keys are distinct
   * (`DistinctKeys`); the functions below do not rely on it.
   */
  datatype Template =
    | Pred(test: Value -> bool)
    | Exact(prim: Prim)
    | Items(items: seq<Template>)
    | Keys(entries: seq<Entry>)

  datatype Entry = Entry(key: string, template: Template)

  /** The entries of an object template, like the keys of any JavaScript object, are distinct. */
  predicate DistinctKeys(entries: seq<Entry>)
  {
    forall i, j :: 0 <= i < j < |entries| ==> entries[i].key != entries[j].key
  }

  /** What failed at the reported path. */
  datatype Mismatch =
    | Rejected(data: Value)                 // a predicate returned a falsy value
    | Unequal(expected: Prim, got: Value)   // a primitive was not `===` to the data

  /** `compare` returns normally (Pass) or throws at the first mismatch. */
  datatype Outcome = Pass | Fail(path: string, mismatch: Mismatch)

  /** A property key: an array index or a name. */
  datatype Key = Index(i: nat) | Name(name: string)

  /** JavaScript truthiness. */
  predicate Truthy(v: Value)
    ensures v.Arr? || v.Obj? ==> Truthy(v)
    ensures v.Atom? ==> (Truthy(v) <==> v.prim !in {Undefined, Null, Bool(false), Num(0), Str("")})
  {
    match v
    case Atom(Undefined) => false
    case Atom(Null) => false
    case Atom(Bool(b)) => b
    case Atom(Num(n)) => n != 0
    case Atom(Str(s)) => s != ""
    case _ => true
  }

  function Lookup(fields: map<string, Value>, name: string): Value
  {
    if name in fields then fields[name] else Atom(Undefined)
  }

  /** `lodash.get(data, key)` for a single own property. */
  function Get(data: Value, key: Key): (r: Value)
    ensures data.Obj? && key.Name? && key.name in data.fields ==> r == data.fields[key.name]
    ensures data.Obj? && key.Name? && key.name !in data.fields ==> r == Atom(Undefined)
    ensures data.Obj? && key.Index? ==> r == Lookup(data.fields, NatText(key.i))
    ensures data.Arr? && key.Index? && key.i < |data.elems| ==> r == data.elems[key.i]
    ensures data.Arr? && key.Index? && |data.elems| <= key.i ==> r == Atom(Undefined)
    ensures data.Arr? && key.Name? ==> r == if key.name == "length" then Atom(Num(|data.elems|)) else Atom(Undefined)
    ensures data.Atom? && data.prim.Str? && key.Index? ==>
              r == if key.i < |data.prim.s| then Atom(Str([data.prim.s[key.i]])) else Atom(Undefined)
    ensures data.Atom? && data.prim.Str? && key.Name? ==>
              r == if key.name == "length" then Atom(Num(|data.prim.s|)) else Atom(Undefined)
    ensures data.Atom? && !data.prim.Str? ==> r == Atom(Undefined)
  {
    match data
    case Atom(Str(s)) =>
      (match key
       case Index(i) => if i < |s| then Atom(Str([s[i]])) else Atom(Undefined)
       case Name(name) => if name == "length" then Atom(Num(|s|)) else Atom(Undefined))
    case Atom(_) => Atom(Undefined)
    case Arr(elems) =>
      (match key
       case Index(i) => if i < |elems| then elems[i] else Atom(Undefined)
       case Name(name) => if name == "length" then Atom(Num(|elems|)) else Atom(Undefined))
    case Obj(fields) =>
      (match key
       case Index(i) => Lookup(fields, NatText(i))
       case Name(name) => Lookup(fields, name))
  }

  /** `Number.MAX_SAFE_INTEGER`, 2^53 - 1: the largest length lodash's `isLength` accepts. */
  const MaxSafeInteger: nat := 0x1F_FFFF_FFFF_FFFF

  /** An entry that makes an object array-like for lodash: key `length` with an integer value from 0 to 2^53 - 1. */
  predicate IsLengthEntry(e: Entry)
  {
    e.key == "length" && e.template.Exact? && e.template.prim.Num? && 0 <= e.template.prim.n <= MaxSafeInteger
  }

  /**
   * The length under which `lodash.forEach` walks an object template by
   * index (`isArrayLike`), or None when it walks it key by key.
   */
  function ArrayLength(entries: seq<Entry>): (r: Option<nat>)
    ensures r.Some? <==> exists j :: 0 <= j < |entries| && IsLengthEntry(entries[j])
    ensures r.Some? ==> exists j :: 0 <= j < |entries| && IsLengthEntry(entries[j]) && r.value == entries[j].template.prim.n &&
                                    forall i :: 0 <= i < j ==> !IsLengthEntry(entries[i])
    ensures r.Some? ==> r.value <= MaxSafeInteger
  {
    if entries == [] then None
    else if IsLengthEntry(entries[0]) then Some(entries[0].template.prim.n)
    else
      var r := ArrayLength(entries[1..]);
      assert forall j :: 1 <= j < |entries| ==> entries[j] == entries[1..][j - 1];
      if r.Some? then
        var j :| 0 <= j < |entries[1..]| && IsLengthEntry(entries[1..][j]) && r.value == entries[1..][j].template.prim.n &&
                 forall i :: 0 <= i < j ==> !IsLengthEntry(entries[1..][i]);
        assert IsLengthEntry(entries[j + 1]) && r.value == entries[j + 1].template.prim.n;
        assert forall i :: 0 <= i < j + 1 ==> !IsLengthEntry(entries[i]);
        r
      else r
  }

  /** The position of the entry with key `key`, if any. */
  function KeyIndex(entries: seq<Entry>, key: string): (r: Option<nat>)
    ensures r.Some? ==> r.value < |entries| && entries[r.value].key == key
    ensures r.None? ==> forall j :: 0 <= j < |entries| ==> entries[j].key != key
  {
    if entries == [] then None
    else if entries[0].key == key then Some(0)
    else
      var r := KeyIndex(entries[1..], key);
      assert forall j :: 1 <= j < |entries| ==> entries[j] == entries[1..][j - 1];
      if r.Some? then Some(r.value + 1) else None
  }

  /** `${path}[${i}]`: the path of an array template's item i. */
  function IndexPath(path: string, i: nat): string
  {
    path + "[" + NatText(i) + "]"
  }

  /** `${path}.${key}`: the path of an object template's entry `key`. */
  function KeyPath(path: string, key: string): string
  {
    path + "." + key
  }

  /**
   * A child's path extends its parent's: `[`, the index's decimal text and
   * `]` for an array item; `.` and the key for an object entry.
   */
  lemma PathShapes(path: string, i: nat, key: string)
    ensures var r := IndexPath(path, i);
      && path <= r && |r| == |path| + |NatText(i)| + 2
      && r[|path|] == '[' && r[|path| + 1..|r| - 1] == NatText(i) && r[|r| - 1] == ']'
    ensures var r := KeyPath(path, key);
      && path <= r && |r| == |path| + |key| + 1
      && r[|path|] == '.' && r[|path| + 1..] == key
  {
  }

  /** `compare(data, template, {path})`. */
  function Check(data: Value, t: Template, path: string): (r: Outcome)
    ensures t.Pred? ==> (r.Pass? <==> t.test(data))
    ensures t.Pred? && r.Fail? ==> r == Fail(path, Rejected(data))
    ensures t.Exact? ==> (r.Pass? <==> data == Atom(t.prim))
    ensures t.Exact? && r.Fail? ==> r == Fail(path, Unequal(t.prim, data))
    ensures r.Fail? ==> path <= r.path
    decreases t, 2, 0
  {
    match t
    case Pred(test) => if test(data) then Pass else Fail(path, Rejected(data))
    case Exact(prim) => if data == Atom(prim) then Pass else Fail(path, Unequal(prim, data))
    case Items(items) => CheckItems(data, items, 0, path)
    case Keys(entries) => CheckObject(data, entries, path)
  }

  /**
   * An object template, as `lodash.forEach` walks it: by index when its
   * `length` is a valid array length, key by key otherwise.
   */
  function CheckObject(data: Value, entries: seq<Entry>, path: string): (r: Outcome)
    ensures r.Fail? ==> path <= r.path
    decreases Keys(entries), 1, 0
  {
    match ArrayLength(entries)
    case Some(n) => CheckIndexed(data, entries, 0, n, path)
    case None => CheckEntries(data, entries, path)
  }

  /** Items `from`, `from + 1`, ... of an array template, in increasing index order. */
  function CheckItems(data: Value, items: seq<Template>, from: nat, path: string): (r: Outcome)
    ensures r.Fail? ==> path <= r.path
    decreases items, 0, 0
  {
    if items == [] then Pass
    else
      var r := Check(Get(data, Index(from)), items[0], IndexPath(path, from));
      if r.Fail? then r else CheckItems(data, items[1..], from + 1, path)
  }

  /** The entries of an object template, in iteration order. */
  function CheckEntries(data: Value, entries: seq<Entry>, path: string): (r: Outcome)
    ensures r.Fail? ==> path <= r.path
    decreases entries, 0, 0
  {
    if entries == [] then Pass
    else
      var e := entries[0];
      var r := Check(Get(data, Name(e.key)), e.template, KeyPath(path, e.key));
      if r.Fail? then r else CheckEntries(data, entries[1..], path)
  }

  /**
   * Indices `from` .. `n - 1` of an object template walked as an array-like:
   * `template[i]` against `data[i]` at `path.i`, where a missing `template[i]`
   * is `undefined` and so must be `===` to the data. The `length` entry and
   * every other key are not compared.
   */
  function CheckIndexed(data: Value, entries: seq<Entry>, from: nat, n: nat, path: string): (r: Outcome)
    ensures r.Fail? ==> path <= r.path
    decreases Keys(entries), 0, n - from
  {
    if n <= from then Pass
    else
      var item, at := Get(data, Index(from)), KeyPath(path, NatText(from));
      var r :=
        match KeyIndex(entries, NatText(from))
        case Some(j) => Check(item, entries[j].template, at)
        case None => if item == Atom(Undefined) then Pass else Fail(at, Unequal(Undefined, item));
      if r.Fail? then r else CheckIndexed(data, entries, from + 1, n, path)
  }

  /** The result of checking item k of an array template whose first item is at index `from`. */
  function ItemResult(data: Value, items: seq<Template>, from: nat, path: string, k: nat): Outcome
    requires k < |items|
  {
    Check(Get(data, Index(from + k)), items[k], IndexPath(path, from + k))
  }

  /** The result of checking entry j of an object template. */
  function EntryResult(data: Value, entries: seq<Entry>, path: string, j: nat): Outcome
    requires j < |entries|
  {
    Check(Get(data, Name(entries[j].key)), entries[j].template, KeyPath(path, entries[j].key))
  }

  /** An array template passes exactly when every item passes against the element at its index. */
  lemma {:induction false} ItemsPassAll(data: Value, items: seq<Template>, from: nat, path: string)
    ensures CheckItems(data, items, from, path).Pass? <==> forall k :: 0 <= k < |items| ==> ItemResult(data, items, from, path, k).Pass?
  {
    if items != [] {
      assert ItemResult(data, items, from, path, 0) == Check(Get(data, Index(from)), items[0], IndexPath(path, from));
      ItemsPassAll(data, items[1..], from + 1, path);
      forall k | 1 <= k < |items|
        ensures ItemResult(data, items, from, path, k) == ItemResult(data, items[1..], from + 1, path, k - 1)
      {
        assert items[k] == items[1..][k - 1] && from + k == (from + 1) + (k - 1);
      }
      var tail, next := items[1..], from + 1;
      forall k | 0 <= k < |tail|
        ensures ItemResult(data, tail, next, path, k) == ItemResult(data, items, from, path, k + 1)
      {
        assert items[k + 1] == items[1..][k];
      }
    }
  }

  /** An object template passes exactly when every entry passes against the data's property of that name. */
  lemma {:induction false} EntriesPassAll(data: Value, entries: seq<Entry>, path: string)
    ensures CheckEntries(data, entries, path).Pass? <==> forall j :: 0 <= j < |entries| ==> EntryResult(data, entries, path, j).Pass?
  {
    if entries != [] {
      var e := entries[0];
      assert EntryResult(data, entries, path, 0) == Check(Get(data, Name(e.key)), e.template, KeyPath(path, e.key));
      EntriesPassAll(data, entries[1..], path);
      forall j | 1 <= j < |entries|
        ensures EntryResult(data, entries, path, j) == EntryResult(data, entries[1..], path, j - 1)
      {
        assert entries[j] == entries[1..][j - 1];
      }
      var tail := entries[1..];
      forall j | 0 <= j < |tail|
        ensures EntryResult(data, tail, path, j) == EntryResult(data, entries, path, j + 1)
      {
        assert entries[j + 1] == entries[1..][j];
      }
    }
  }

  /**
   * `compare(data)` (template None: the identity function, so the data must
   * be truthy) or `compare(data, template)`, from the empty path.
   */
  function Compare(data: Value, template: Option<Template>): (r: Outcome)
    ensures template.None? ==> (r.Pass? <==> Truthy(data))
    ensures template.None? && r.Fail? ==> r == Fail("", Rejected(data))
  {
    Check(data, if template.Some? then template.value else Pred(Truthy), "")
  }

  /** The matching half of `compare.dump(v, t = {})`. */
  function Dump(v: Value, template: Option<Template>): (r: Outcome)
    ensures template.None? ==> r == Pass
  {
    Check(v, if template.Some? then template.value else Keys([]), "")
  }

  // ---------------------------------------------------------------------
  // Traversal order: the first failure ends the comparison

  /** Checking items then more items: the second part is reached only if the first passes. */
  lemma {:induction false} ItemsAppend(data: Value, items: seq<Template>, later: seq<Template>, from: nat, path: string)
    ensures CheckItems(data, items + later, from, path) ==
            if CheckItems(data, items, from, path).Fail? then CheckItems(data, items, from, path)
            else CheckItems(data, later, from + |items|, path)
  {
    if items != [] {
      assert (items + later)[0] == items[0];
      assert (items + later)[1..] == items[1..] + later;
      assert (from + 1) + |items[1..]| == from + |items|;
      ItemsAppend(data, items[1..], later, from + 1, path);
    } else {
      assert items + later == later;
    }
  }

  /** A failing array template fails at its first failing index, all earlier indices having passed. */
  lemma {:induction false} FirstFailingItem(data: Value, items: seq<Template>, from: nat, path: string) returns (j: nat)
    requires CheckItems(data, items, from, path).Fail?
    ensures j < |items|
    ensures forall k :: 0 <= k < j ==> ItemResult(data, items, from, path, k).Pass?
    ensures CheckItems(data, items, from, path) == ItemResult(data, items, from, path, j)
  {
    if ItemResult(data, items, from, path, 0).Fail? {
      j := 0;
    } else {
      var tail := items[1..];
      var j' := FirstFailingItem(data, tail, from + 1, path);
      j := j' + 1;
      forall k | 1 <= k <= j
        ensures ItemResult(data, items, from, path, k) == ItemResult(data, tail, from + 1, path, k - 1)
      {
        assert items[k] == tail[k - 1] && from + k == (from + 1) + (k - 1);
      }
    }
  }

  /** Checking entries then more entries: the second part is reached only if the first passes. */
  lemma {:induction false} EntriesAppend(data: Value, entries: seq<Entry>, later: seq<Entry>, path: string)
    ensures CheckEntries(data, entries + later, path) ==
            if CheckEntries(data, entries, path).Fail? then CheckEntries(data, entries, path)
            else CheckEntries(data, later, path)
  {
    if entries != [] {
      assert (entries + later)[0] == entries[0];
      assert (entries + later)[1..] == entries[1..] + later;
      EntriesAppend(data, entries[1..], later, path);
    } else {
      assert entries + later == later;
    }
  }

  /** A failing object template fails at its first failing entry, all earlier entries having passed. */
  lemma {:induction false} FirstFailingEntry(data: Value, entries: seq<Entry>, path: string) returns (j: nat)
    requires CheckEntries(data, entries, path).Fail?
    ensures j < |entries|
    ensures forall k :: 0 <= k < j ==> EntryResult(data, entries, path, k).Pass?
    ensures CheckEntries(data, entries, path) == EntryResult(data, entries, path, j)
  {
    if EntryResult(data, entries, path, 0).Fail? {
      j := 0;
    } else {
      var tail := entries[1..];
      var j' := FirstFailingEntry(data, tail, path);
      j := j' + 1;
      forall k | 1 <= k <= j
        ensures EntryResult(data, entries, path, k) == EntryResult(data, tail, path, k - 1)
      {
        assert entries[k] == tail[k - 1];
      }
    }
  }

  // ---------------------------------------------------------------------
  // What the data may hold beyond the template

  /** Array elements past the template's last index are never examined. */
  lemma {:induction false} ExtraElementsIgnored(elems: seq<Value>, extra: seq<Value>, items: seq<Template>, from: nat, path: string)
    requires from + |items| <= |elems|
    ensures CheckItems(Arr(elems + extra), items, from, path) == CheckItems(Arr(elems), items, from, path)
  {
    if items != [] {
      assert (elems + extra)[from] == elems[from];
      ExtraElementsIgnored(elems, extra, items[1..], from + 1, path);
    }
  }

  /** Only the template's keys are read: objects that agree on them compare alike. */
  lemma {:induction false} OnlyTemplateKeysRead(fields: map<string, Value>, other: map<string, Value>, entries: seq<Entry>, path: string)
    requires forall j :: 0 <= j < |entries| ==> Lookup(fields, entries[j].key) == Lookup(other, entries[j].key)
    ensures CheckEntries(Obj(fields), entries, path) == CheckEntries(Obj(other), entries, path)
  {
    if entries != [] {
      assert forall j :: 1 <= j < |entries| ==> entries[j] == entries[1..][j - 1];
      OnlyTemplateKeysRead(fields, other, entries[1..], path);
    }
  }

  /** Keys present only in the data are ignored by a template walked key by key. */
  lemma ExtraKeysIgnored(fields: map<string, Value>, extra: map<string, Value>, entries: seq<Entry>, path: string)
    requires ArrayLength(entries).None?
    requires forall j :: 0 <= j < |entries| ==> entries[j].key !in extra
    ensures Check(Obj(fields + extra), Keys(entries), path) == Check(Obj(fields), Keys(entries), path)
  {
    OnlyTemplateKeysRead(fields + extra, fields, entries, path);
  }

  /** A template key missing from the data is matched against `undefined` at `path.key`. */
  lemma MissingKeyIsUndefined(fields: map<string, Value>, key: string, t: Template, path: string)
    requires !IsLengthEntry(Entry(key, t))
    requires key !in fields
    ensures Check(Obj(fields), Keys([Entry(key, t)]), path) == Check(Atom(Undefined), t, KeyPath(path, key))
  {
    var entries := [Entry(key, t)];
    assert entries[1..] == [];
    assert Get(Obj(fields), Name(key)) == Atom(Undefined);
    assert CheckEntries(Obj(fields), entries[1..], path) == Pass;
    assert Check(Obj(fields), Keys(entries), path) == CheckEntries(Obj(fields), entries, path);
  }

  // ---------------------------------------------------------------------
  // Smaller templates

  /** An empty array or object template accepts any data. */
  lemma EmptyTemplatesAccept(data: Value, path: string)
    ensures Check(data, Items([]), path) == Pass && Check(data, Keys([]), path) == Pass
  {
  }

  /** Dropping the last item of a passing array template keeps it passing. */
  lemma TrailingItemDropped(data: Value, items: seq<Template>, last: Template, path: string)
    requires Check(data, Items(items + [last]), path).Pass?
    ensures Check(data, Items(items), path).Pass?
  {
    ItemsAppend(data, items, [last], 0, path);
  }

  /** Dropping any entry of an object template walked key by key keeps a passing comparison passing. */
  lemma EntriesDroppable(data: Value, entries: seq<Entry>, j: nat, path: string)
    requires j < |entries|
    requires CheckEntries(data, entries, path).Pass?
    ensures CheckEntries(data, entries[..j] + entries[j + 1..], path).Pass?
  {
    var rest := entries[..j] + entries[j + 1..];
    EntriesPassAll(data, entries, path);
    EntriesPassAll(data, rest, path);
    forall k | 0 <= k < |rest|
      ensures EntryResult(data, rest, path, k).Pass?
    {
      var src := if k < j then k else k + 1;
      assert rest[k] == entries[src];
      assert EntryResult(data, rest, path, k) == EntryResult(data, entries, path, src);
    }
  }

  /**
   * Dropping any entry of a passing object template without a valid
   * `length` keeps it passing (the template stays one walked key by key).
   */
  lemma EntryDropped(data: Value, entries: seq<Entry>, j: nat, path: string)
    requires j < |entries| && ArrayLength(entries).None?
    requires Check(data, Keys(entries), path).Pass?
    ensures Check(data, Keys(entries[..j] + entries[j + 1..]), path).Pass?
  {
    EntriesDroppable(data, entries, j, path);
  }

  // ---------------------------------------------------------------------
  // Object templates walked as array-likes

  /** The template `lodash.forEach` hands over for index i of an array-like object: `template[i]`, undefined when absent. */
  function TemplateAt(entries: seq<Entry>, i: nat): Template
  {
    var j := KeyIndex(entries, NatText(i));
    if j.Some? then entries[j.value].template else Exact(Undefined)
  }

  /** The result of checking index i of an array-like object template. */
  function IndexedResult(data: Value, entries: seq<Entry>, path: string, i: nat): Outcome
  {
    Check(Get(data, Index(i)), TemplateAt(entries, i), KeyPath(path, NatText(i)))
  }

  /** An array-like walk passes exactly when every index below the length passes, and fails with the first failing index's outcome. */
  lemma {:induction false} IndexedPassAll(data: Value, entries: seq<Entry>, from: nat, n: nat, path: string)
    ensures CheckIndexed(data, entries, from, n, path).Pass? <==> forall i :: from <= i < n ==> IndexedResult(data, entries, path, i).Pass?
    ensures CheckIndexed(data, entries, from, n, path).Fail? ==>
              exists i :: from <= i < n && CheckIndexed(data, entries, from, n, path) == IndexedResult(data, entries, path, i)
    decreases n - from
  {
    if from < n {
      IndexedPassAll(data, entries, from + 1, n, path);
      IndexedStep(data, entries, from, n, path);
      if IndexedResult(data, entries, path, from).Pass? {
        assert (forall i :: from <= i < n ==> IndexedResult(data, entries, path, i).Pass?) <==>
               (forall i :: from + 1 <= i < n ==> IndexedResult(data, entries, path, i).Pass?);
      }
    }
  }

  /** One step of the array-like walk: index `from`'s result, then the rest only if it passed. */
  lemma IndexedStep(data: Value, entries: seq<Entry>, from: nat, n: nat, path: string)
    requires from < n
    ensures CheckIndexed(data, entries, from, n, path) ==
            if IndexedResult(data, entries, path, from).Fail? then IndexedResult(data, entries, path, from)
            else CheckIndexed(data, entries, from + 1, n, path)
  {
    var at := KeyPath(path, NatText(from));
    var item := Get(data, Index(from));
    if KeyIndex(entries, NatText(from)).None? {
      assert Check(item, Exact(Undefined), at) == (if item == Atom(Undefined) then Pass else Fail(at, Unequal(Undefined, item)));
    }
  }

  /** A failing array-like walk fails at its first failing index, all earlier indices having passed. */
  lemma {:induction false} FirstFailingIndex(data: Value, entries: seq<Entry>, from: nat, n: nat, path: string) returns (i: nat)
    requires CheckIndexed(data, entries, from, n, path).Fail?
    ensures from <= i < n
    ensures forall k :: from <= k < i ==> IndexedResult(data, entries, path, k).Pass?
    ensures CheckIndexed(data, entries, from, n, path) == IndexedResult(data, entries, path, i)
    decreases n - from
  {
    IndexedStep(data, entries, from, n, path);
    if IndexedResult(data, entries, path, from).Fail? {
      i := from;
    } else {
      i := FirstFailingIndex(data, entries, from + 1, n, path);
    }
  }

  /**
   * An object template with a valid `length` n compares indices 0 .. n - 1
   * and nothing else: it passes exactly when each `template[i]` (undefined
   * when absent) matches `data[i]`.
   */
  lemma ArrayLikePassAll(data: Value, entries: seq<Entry>, path: string)
    requires ArrayLength(entries).Some?
    ensures Check(data, Keys(entries), path).Pass? <==>
            forall i :: 0 <= i < ArrayLength(entries).value ==> IndexedResult(data, entries, path, i).Pass?
  {
    IndexedPassAll(data, entries, 0, ArrayLength(entries).value, path);
  }

  /**
   * `compare([1, 2], {length: 2})` throws at ".0", expecting undefined,
   * although the data's `length` is 2: the `length` entry is never compared.
   * Walked key by key, the same template passes.
   */
  lemma LengthEntryNotCompared()
    ensures Check(Arr([Atom(Num(1)), Atom(Num(2))]), Keys([Entry("length", Exact(Num(2)))]), "") == Fail(".0", Unequal(Undefined, Atom(Num(1))))
    ensures CheckEntries(Arr([Atom(Num(1)), Atom(Num(2))]), [Entry("length", Exact(Num(2)))], "") == Pass
  {
    var entries := [Entry("length", Exact(Num(2)))];
    assert IsLengthEntry(entries[0]);
    assert NatText(0) == "0";
    assert KeyIndex(entries, "0") == None;
  }

  /**
   * Under the array-like walk, dropping an entry can turn a pass into a
   * failure: `{length: 0, a: 5}` accepts `{}`, while `{a: 5}` rejects it.
   */
  lemma ArrayLikeNotDroppable()
    ensures Check(Obj(map[]), Keys([Entry("length", Exact(Num(0))), Entry("a", Exact(Num(5)))]), "") == Pass
    ensures Check(Obj(map[]), Keys([Entry("a", Exact(Num(5)))]), "") == Fail(".a", Unequal(Num(5), Atom(Undefined)))
  {
    var entries := [Entry("a", Exact(Num(5)))];
    assert !IsLengthEntry(entries[0]);
    assert ArrayLength(entries[1..]) == None;
  }
}
