/** `MLFlowLogger`: flattening of nested dictionaries, the unwrapping and the
    params/metrics split of the solver results, and the whitelist of logged
    configuration attributes.  A Python dictionary is the sequence of its
    items in insertion order; `dict(items)` is `ToMap` (the last value of a
    key wins). */
module MlflowLogger {
  import opened Seqs

  /** The values a loaded JSON document or a configuration attribute holds. */
  datatype Value =
    | Str(s: string)
    | Number(x: real)
    | Flag(b: bool)
    | Null
    | List(elements: seq<Value>)
    | Dict(entries: seq<(string, Value)>)

  type Items = seq<(string, Value)>

  /** `t` is a suffix of `s`. */
  predicate EndsWith(s: string, t: string)
  {
    |t| <= |s| && s[|s| - |t|..] == t
  }

  /** The key of `k` under `parent`: `parent + sep + k`, or `k` alone when the
      parent key is empty. */
  function Key(parent: string, sep: string, k: string): (r: string)
    ensures parent != "" ==> r == parent + sep + k
    ensures parent == "" ==> r == k
  {
    if parent != "" then parent + sep + k else k
  }

  /** A parent key is a prefix of every key under it. */
  lemma KeyExtends(parent: string, sep: string, k: string)
    ensures parent <= Key(parent, sep, k)
  {
    if parent != "" {
      assert (parent + sep + k)[..|parent|] == parent;
    }
  }

  /** The item's own key ends every key made from it. */
  lemma KeyEndsWith(parent: string, sep: string, k: string)
    ensures EndsWith(Key(parent, sep, k), k)
  {
    if parent != "" {
      assert (parent + sep + k)[|parent + sep|..] == k;
    }
  }

  // ---------------------------------------------------------------- flatten

  /** The items `flatten(d, parent, sep)` collects from the items of `d` at
      position `i` onwards: a nested dictionary contributes the items of its
      own flattened dictionary under the new key, any other value is kept
      under it. */
  function FlattenFrom(d: Items, i: nat, parent: string, sep: string): Items
    requires i <= |d|
    decreases Dict(d), |d| - i
  {
    if i == |d| then []
    else
      var key := Key(parent, sep, d[i].0);
      assert d[i] in d;
      (if d[i].1.Dict? then DictItems(FlattenFrom(d[i].1.entries, 0, key, sep)) else [(key, d[i].1)])
      + FlattenFrom(d, i + 1, parent, sep)
  }

  /** `flatten(d, parent_key, sep)`: the dictionary built from the collected
      items. */
  function Flatten(d: Items, parent: string, sep: string): map<string, Value>
  {
    ToMap(FlattenFrom(d, 0, parent, sep))
  }

  /** `flatten` with its loop over `d.items()` appending to (or extending)
      `items`; returns the items before the final `dict(items)`. */
  method FlattenItems(d: Items, parent: string, sep: string) returns (items: Items)
    ensures items == FlattenFrom(d, 0, parent, sep)
    decreases Dict(d)
  {
    items := [];
    var i := 0;
    while i < |d|
      invariant 0 <= i <= |d|
      invariant items + FlattenFrom(d, i, parent, sep) == FlattenFrom(d, 0, parent, sep)
    {
      var newKey := if parent != "" then parent + sep + d[i].0 else d[i].0;
      assert newKey == Key(parent, sep, d[i].0);
      assert d[i] in d;
      var piece: Items;
      if d[i].1.Dict? {
        var nested := FlattenItems(d[i].1.entries, newKey, sep);
        piece := DictItems(nested);
      } else {
        piece := [(newKey, d[i].1)];
      }
      FlattenStep(d, i, parent, sep, newKey, piece);
      AccumulateStep(items, piece, FlattenFrom(d, i, parent, sep), FlattenFrom(d, i + 1, parent, sep),
                     FlattenFrom(d, 0, parent, sep));
      items := items + piece;
      i := i + 1;
    }
  }

  /** One step of an accumulation loop: moving a piece from the remainder
      to the accumulated items keeps their concatenation. */
  lemma AccumulateStep<T>(items: seq<T>, piece: seq<T>, rest: seq<T>, rest1: seq<T>, whole: seq<T>)
    requires items + rest == whole && rest == piece + rest1
    ensures (items + piece) + rest1 == whole
  {
    AppendAssoc(items, piece, rest1);
  }

  /** The items from position i are that item's piece, then those from
      position i + 1. */
  lemma FlattenStep(d: Items, i: nat, parent: string, sep: string, key: string, piece: Items)
    requires i < |d| && key == Key(parent, sep, d[i].0)
    requires d[i].1.Dict? ==> d[i].1 < Dict(d) && piece == DictItems(FlattenFrom(d[i].1.entries, 0, key, sep))
    requires !d[i].1.Dict? ==> piece == [(key, d[i].1)]
    ensures FlattenFrom(d, i, parent, sep) == piece + FlattenFrom(d, i + 1, parent, sep)
  {
  }

  /** Every non-dictionary value of `d` at position `i` or later is kept under
      its key prefixed by the parent key and the separator. */
  lemma {:induction false} FlattenKeepsLeaves(d: Items, i: nat, parent: string, sep: string, j: nat)
    requires i <= j < |d| && !d[j].1.Dict?
    ensures (Key(parent, sep, d[j].0), d[j].1) in FlattenFrom(d, i, parent, sep)
    decreases |d| - i
  {
    if i < j {
      FlattenKeepsLeaves(d, i + 1, parent, sep, j);
      SuffixStep(d, i, parent, sep);
      InSuffix(FlattenFrom(d, i, parent, sep), FlattenFrom(d, i + 1, parent, sep), (Key(parent, sep, d[j].0), d[j].1));
    } else {
      LeafStep(d, i, parent, sep);
    }
  }

  lemma InSuffix<T>(f: seq<T>, g: seq<T>, x: T)
    requires |g| <= |f| && f[|f| - |g|..] == g && x in g
    ensures x in f
  {
    var k :| 0 <= k < |g| && g[k] == x;
    assert f[|f| - |g| + k] == x;
  }

  /** No value in the flattened items is a dictionary. */
  lemma {:induction false} FlattenHasNoDict(d: Items, i: nat, parent: string, sep: string)
    requires i <= |d|
    ensures forall e :: e in FlattenFrom(d, i, parent, sep) ==> !e.1.Dict?
    decreases Dict(d), |d| - i
  {
    if i < |d| {
      assert d[i] in d;
      if d[i].1.Dict? {
        var sub := FlattenFrom(d[i].1.entries, 0, Key(parent, sep, d[i].0), sep);
        FlattenHasNoDict(d[i].1.entries, 0, Key(parent, sep, d[i].0), sep);
        forall e | e in DictItems(sub)
          ensures !e.1.Dict?
        {
          DictItemsMembers(sub, e);
        }
      }
      FlattenHasNoDict(d, i + 1, parent, sep);
    }
  }

  /** Every flattened key starts with the key, under `parent`, of one of the
      items of `d` at position `i` or later. */
  lemma {:induction false} FlattenKeysUnder(d: Items, i: nat, parent: string, sep: string)
    requires i <= |d|
    ensures forall e :: e in FlattenFrom(d, i, parent, sep) ==>
              exists j :: i <= j < |d| && Key(parent, sep, d[j].0) <= e.0
    decreases Dict(d), |d| - i
  {
    if i < |d| {
      var key := Key(parent, sep, d[i].0);
      assert d[i] in d;
      FlattenKeysUnder(d, i + 1, parent, sep);
      if d[i].1.Dict? {
        var nested := d[i].1.entries;
        FlattenKeysUnder(nested, 0, key, sep);
        var sub := FlattenFrom(nested, 0, key, sep);
        forall e | e in DictItems(sub)
          ensures key <= e.0
        {
          DictItemsMembers(sub, e);
          var j :| 0 <= j < |nested| && Key(key, sep, nested[j].0) <= e.0;
          KeyExtends(key, sep, nested[j].0);
          PrefixTransitive(key, Key(key, sep, nested[j].0), e.0);
        }
      }
    }
  }

  lemma PrefixTransitive(a: string, b: string, c: string)
    requires a <= b && b <= c
    ensures a <= c
  {
  }

  /** Flattening items that hold no dictionary, at the top level, changes
      nothing. */
  lemma {:induction false} FlattenFlat(d: Items, i: nat, sep: string)
    requires i <= |d|
    requires forall e :: e in d ==> !e.1.Dict?
    ensures FlattenFrom(d, i, "", sep) == d[i..]
    decreases |d| - i
  {
    if i < |d| {
      assert d[i] in d;
      FlattenFlat(d, i + 1, sep);
      assert d[i..] == [d[i]] + d[i + 1..];
    }
  }

  /** Flattening is idempotent on the collected items. */
  lemma FlattenTwice(d: Items, sep: string)
    ensures FlattenFrom(FlattenFrom(d, 0, "", sep), 0, "", sep) == FlattenFrom(d, 0, "", sep)
  {
    var f := FlattenFrom(d, 0, "", sep);
    FlattenHasNoDict(d, 0, "", sep);
    FlattenFlat(f, 0, sep);
    assert f[0..] == f;
  }

  /** `flatten(flatten(d)) == flatten(d)`: the items of the flattened
      dictionary (each key once) hold no dictionary, so flattening them
      rebuilds the same dictionary. */
  lemma FlattenIdempotent(d: Items, sep: string, listing: Items)
    requires forall m, n :: 0 <= m < n < |listing| ==> listing[m].0 != listing[n].0
    requires ToMap(listing) == Flatten(d, "", sep)
    ensures Flatten(listing, "", sep) == Flatten(d, "", sep)
  {
    var f := FlattenFrom(d, 0, "", sep);
    FlattenHasNoDict(d, 0, "", sep);
    forall n | 0 <= n < |listing|
      ensures !listing[n].1.Dict?
    {
      ToMapLastWins(listing, n);
      ToMapValue(f, listing[n].0);
    }
    FlattenFlat(listing, 0, sep);
    assert listing[0..] == listing;
  }

  /** On a key collision the later item wins: a flattened item that no later
      flattened item overrides gives its key's value in the result. */
  lemma FlattenLastWins(d: Items, parent: string, sep: string, n: nat)
    requires n < |FlattenFrom(d, 0, parent, sep)|
    requires forall m :: n < m < |FlattenFrom(d, 0, parent, sep)| ==>
               FlattenFrom(d, 0, parent, sep)[m].0 != FlattenFrom(d, 0, parent, sep)[n].0
    ensures var e := FlattenFrom(d, 0, parent, sep)[n];
            e.0 in Flatten(d, parent, sep) && Flatten(d, parent, sep)[e.0] == e.1
  {
    ToMapLastWins(FlattenFrom(d, 0, parent, sep), n);
  }

  /** An instance: `{"a_b": 1, "a": {"b": 2}}` flattens to `{"a_b": 2}`, the
      later item winning. */
  lemma FlattenCollision()
    ensures Flatten([("a_b", Number(1.0)), ("a", Dict([("b", Number(2.0))]))], "", "_")
            == map["a_b" := Number(2.0)]
  {
    var d := [("a_b", Number(1.0)), ("a", Dict([("b", Number(2.0))]))];
    var sub := [("a_b", Number(2.0))];
    NestedItems();
    assert FlattenFrom(d, 2, "", "_") == [];
    assert FlattenFrom(d, 1, "", "_") == sub;
    assert FlattenFrom(d, 0, "", "_") == [("a_b", Number(1.0)), ("a_b", Number(2.0))];
    var items := [("a_b", Number(1.0)), ("a_b", Number(2.0))];
    assert items[..1] == [("a_b", Number(1.0))];
    assert items[..1][..0] == [];
  }

  /** The nested block of `FlattenCollision`: `{"b": 2}` under `"a"`
      contributes the single item `("a_b", 2)`. */
  lemma NestedItems()
    ensures DictItems(FlattenFrom([("b", Number(2.0))], 0, "a", "_")) == [("a_b", Number(2.0))]
  {
    var nested := [("b", Number(2.0))];
    var sub := [("a_b", Number(2.0))];
    assert Key("a", "_", "b") == "a_b";
    assert FlattenFrom(nested, 1, "a", "_") == [];
    assert FlattenFrom(nested, 0, "a", "_") == sub;
    assert Keys(sub) == ["a_b"];
    assert ["a_b"][..0] == [];
    assert Dedup(Keys(sub)) == ["a_b"];
    assert sub[..0] == [];
    assert ToMap(sub) == map["a_b" := Number(2.0)];
  }

  // ---------------------------------------------------------------- solver results

  /** `v[0]`: the first element of a list, or the first character of a
      string; `None` where Python raises (an empty or unindexable value). */
  function First(v: Value): Option<Value>
  {
    match v
    case List(elements) => if elements == [] then None else Some(elements[0])
    case Str(s) => if s == [] then None else Some(Str([s[0]]))
    case _ => None
  }

  /** The loaded results with every value replaced by its first element. */
  function Unwrapped(d: Items): (r: Option<Items>)
    ensures r.Some? <==> forall i :: 0 <= i < |d| ==> First(d[i].1).Some?
    ensures r.Some? ==> |r.value| == |d|
    ensures r.Some? ==> forall i :: 0 <= i < |d| ==> r.value[i] == (d[i].0, First(d[i].1).value)
  {
    if d == [] then Some([])
    else
      match (Unwrapped(d[..|d| - 1]), First(d[|d| - 1].1))
      case (Some(p), Some(v)) => Some(p + [(d[|d| - 1].0, v)])
      case _ => None
  }

  /** The loop `results_dict[k] = v[0]`, overwriting each value in place;
      `None` when an element is missing. */
  method UnwrapResults(d: Items) returns (r: Option<Items>)
    ensures r == Unwrapped(d)
  {
    var results := d;
    for i := 0 to |d|
      invariant |results| == |d|
      invariant forall j :: 0 <= j < i ==> First(d[j].1).Some?
      invariant forall j :: 0 <= j < i ==> results[j] == (d[j].0, First(d[j].1).value)
      invariant forall j :: i <= j < |d| ==> results[j] == d[j]
    {
      var first := First(results[i].1);
      if first.None? {
        return None;
      }
      results := results[i := (results[i].0, first.value)];
    }
    assert Unwrapped(d).Some?;
    assert Unwrapped(d).value == results;
    return Some(results);
  }

  function IsString(v: Value): bool { v.Str? }

  /** The string-valued results, logged as parameters. */
  function ParamsOf(f: map<string, Value>): map<string, Value>
  {
    map k | k in f && IsString(f[k]) :: f[k]
  }

  /** The other results, logged as metrics. */
  function MetricsOf(f: map<string, Value>): map<string, Value>
  {
    map k | k in f && !IsString(f[k]) :: f[k]
  }

  /** Parameters and metrics are disjoint and together give back the
      flattened results; the parameters are exactly the string values. */
  lemma ParamsMetricsPartition(f: map<string, Value>)
    ensures ParamsOf(f).Keys !! MetricsOf(f).Keys
    ensures ParamsOf(f) + MetricsOf(f) == f
    ensures forall k :: k in ParamsOf(f) ==> ParamsOf(f)[k].Str?
    ensures forall k :: k in MetricsOf(f) ==> !MetricsOf(f)[k].Str?
  {
    assert (ParamsOf(f) + MetricsOf(f)).Keys == f.Keys;
  }

  /** The parameters and metrics `__log_opt_model` logs, or `None` when the
      unwrapping fails. */
  function LoggedResults(d: Items): Option<(map<string, Value>, map<string, Value>)>
  {
    match Unwrapped(d)
    case None => None
    case Some(u) =>
      var f := Flatten(u, "", "_");
      Some((ParamsOf(f), MetricsOf(f)))
  }

  /** A string-valued first element of a top-level result is logged as a
      parameter under its own key, unless a later key collides with it. */
  lemma StringResultIsParam(d: Items, i: nat)
    requires i < |d| && Unwrapped(d).Some?
    requires First(d[i].1).Some? && First(d[i].1).value.Str?
    requires forall e :: e in FlattenFrom(Unwrapped(d).value, i + 1, "", "_") ==> e.0 != d[i].0
    ensures LoggedResults(d).Some?
    ensures d[i].0 in LoggedResults(d).value.0
    ensures LoggedResults(d).value.0[d[i].0] == First(d[i].1).value
  {
    var u := Unwrapped(d).value;
    var f := FlattenFrom(u, 0, "", "_");
    SplitAt(u, i, "", "_");
    var head := FlattenFrom(u, 0, "", "_")[..|f| - |FlattenFrom(u, i + 1, "", "_")| - 1];
    var n := |f| - |FlattenFrom(u, i + 1, "", "_")| - 1;
    assert f[n] == (d[i].0, First(d[i].1).value);
    forall m | n < m < |f|
      ensures f[m].0 != f[n].0
    {
      assert f[m] in FlattenFrom(u, i + 1, "", "_");
    }
    ToMapLastWins(f, n);
  }

  /** The items from position i consist of the leaf at i (when it is not a
      dictionary) followed by the items from i + 1, after those before i. */
  lemma {:induction false} SplitAt(u: Items, i: nat, parent: string, sep: string)
    requires i < |u| && !u[i].1.Dict?
    ensures |FlattenFrom(u, 0, parent, sep)| >= |FlattenFrom(u, i + 1, parent, sep)| + 1
    ensures var f := FlattenFrom(u, 0, parent, sep);
            var rest := FlattenFrom(u, i + 1, parent, sep);
            f[|f| - |rest| - 1] == (Key(parent, sep, u[i].0), u[i].1) &&
            f[|f| - |rest|..] == rest
  {
    var f := FlattenFrom(u, 0, parent, sep);
    var fi := FlattenFrom(u, i, parent, sep);
    var rest := FlattenFrom(u, i + 1, parent, sep);
    SuffixOf(u, 0, i, parent, sep);
    LeafStep(u, i, parent, sep);
    SuffixSplit(f, fi, rest, (Key(parent, sep, u[i].0), u[i].1));
  }

  /** A suffix that starts with `x` followed by `rest` places `x` just before `rest`. */
  lemma SuffixSplit<T>(f: seq<T>, fi: seq<T>, rest: seq<T>, x: T)
    requires |fi| <= |f| && f[|f| - |fi|..] == fi && fi == [x] + rest
    ensures |f| >= |rest| + 1 && f[|f| - |rest| - 1] == x && f[|f| - |rest|..] == rest
  {
    assert f[|f| - |rest|..] == fi[1..];
  }

  /** A leaf at position i contributes one item ahead of those from i + 1. */
  lemma LeafStep(u: Items, i: nat, parent: string, sep: string)
    requires i < |u| && !u[i].1.Dict?
    ensures FlattenFrom(u, i, parent, sep) == [(Key(parent, sep, u[i].0), u[i].1)] + FlattenFrom(u, i + 1, parent, sep)
  {
  }

  /** The items from position j are a suffix of those from position i <= j. */
  lemma {:induction false} SuffixOf(u: Items, i: nat, j: nat, parent: string, sep: string)
    requires i <= j <= |u|
    ensures var f := FlattenFrom(u, i, parent, sep);
            var g := FlattenFrom(u, j, parent, sep);
            |g| <= |f| && f[|f| - |g|..] == g
    decreases j - i
  {
    if i < j {
      SuffixOf(u, i + 1, j, parent, sep);
      SuffixStep(u, i, parent, sep);
      SuffixTransitive(FlattenFrom(u, i, parent, sep), FlattenFrom(u, i + 1, parent, sep), FlattenFrom(u, j, parent, sep));
    } else {
      SuffixSelf(FlattenFrom(u, i, parent, sep));
    }
  }

  lemma SuffixSelf<T>(f: seq<T>)
    ensures f[|f| - |f|..] == f
  {
  }

  lemma SuffixTransitive<T>(f: seq<T>, f1: seq<T>, g: seq<T>)
    requires |f1| <= |f| && f[|f| - |f1|..] == f1
    requires |g| <= |f1| && f1[|f1| - |g|..] == g
    ensures |g| <= |f| && f[|f| - |g|..] == g
  {
    assert f[|f| - |g|..] == f[|f| - |f1|..][|f1| - |g|..];
  }

  /** The items from position i end with those from position i + 1. */
  lemma SuffixStep(u: Items, i: nat, parent: string, sep: string)
    requires i < |u|
    ensures var f := FlattenFrom(u, i, parent, sep);
            var f1 := FlattenFrom(u, i + 1, parent, sep);
            |f1| <= |f| && f[|f| - |f1|..] == f1
  {
  }

  // ---------------------------------------------------------------- configuration

  /** The attribute names logged from the configuration. */
  const LOG_ATTRIBUTES: seq<string> := [
    "NAME", "OPTIMISATION_MODEL_CONFIG", "OPTIMISATION_SCENARIO",
    "ADD_DELIVERY_TIME_CONSTRAINT", "ADD_DESPATCHER_CONSTRAINT", "OPT_PARAMS"]

  /** A name of the form `__x__`. */
  predicate IsDunder(name: string)
  {
    |name| >= 2 && name[..2] == "__" && name[|name| - 2..] == "__"
  }

  function Filter(attrs: Items, keep: string -> bool): (r: Items)
    ensures forall e :: e in r <==> e in attrs && keep(e.0)
  {
    if attrs == [] then []
    else
      var p := Filter(attrs[..|attrs| - 1], keep);
      assert forall e :: e in attrs <==> e in attrs[..|attrs| - 1] || e == attrs[|attrs| - 1];
      if keep(attrs[|attrs| - 1].0) then p + [attrs[|attrs| - 1]] else p
  }

  function NotDunder(name: string): bool { !IsDunder(name) }

  function Logged(name: string): bool { name in LOG_ATTRIBUTES }

  /** `__log_config`: the non-routine attributes (each name once, as
      `inspect.getmembers` lists them), without dunder names, restricted to
      the whitelist, flattened. */
  function ConfigParams(attrs: Items): map<string, Value>
  {
    Flatten(Filter(Filter(attrs, NotDunder), Logged), "", "_")
  }

  /** No whitelisted name is a dunder name, so the dunder filter never
      removes a whitelisted attribute. */
  lemma WhitelistNotDunder(attrs: Items)
    ensures Filter(Filter(attrs, NotDunder), Logged) == Filter(attrs, Logged)
    decreases |attrs|
  {
    forall name | name in LOG_ATTRIBUTES
      ensures !IsDunder(name)
    {
      assert name[0] != '_';
      assert name[..2][0] == name[0];
    }
    if attrs != [] {
      WhitelistNotDunder(attrs[..|attrs| - 1]);
    }
  }

  /** Every logged configuration key starts with one of the six whitelisted
      names. */
  lemma ConfigKeysWhitelisted(attrs: Items)
    ensures forall k :: k in ConfigParams(attrs) ==> exists name :: name in LOG_ATTRIBUTES && name <= k
  {
    var w := Filter(Filter(attrs, NotDunder), Logged);
    var f := FlattenFrom(w, 0, "", "_");
    FlattenKeysUnder(w, 0, "", "_");
    forall k | k in ConfigParams(attrs)
      ensures exists name :: name in LOG_ATTRIBUTES && name <= k
    {
      ToMapValue(f, k);
      var m :| 0 <= m < |f| && f[m].0 == k;
      assert f[m] in f;
      var j :| 0 <= j < |w| && Key("", "_", w[j].0) <= k;
      assert w[j] in w;
    }
  }

  /** Every whitelisted attribute whose value is not a dictionary is logged
      under its own name (unless a later attribute's key collides with it). */
  lemma ConfigLeavesLogged(attrs: Items, i: nat)
    requires i < |attrs| && attrs[i].0 in LOG_ATTRIBUTES && !attrs[i].1.Dict?
    ensures (attrs[i].0, attrs[i].1) in FlattenFrom(Filter(Filter(attrs, NotDunder), Logged), 0, "", "_")
  {
    var w := Filter(Filter(attrs, NotDunder), Logged);
    WhitelistNotDunder(attrs);
    assert attrs[i] in w;
    var j :| 0 <= j < |w| && w[j] == attrs[i];
    FlattenKeepsLeaves(w, 0, "", "_", j);
  }
}
