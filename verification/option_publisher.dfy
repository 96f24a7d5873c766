/** Publishing the core options to the host (`libretro_set_core_options`,
    libretro_core_options.h:668-925, with the language-specific branches
    compiled out). The host's answer to
    `RETRO_ENVIRONMENT_GET_CORE_OPTIONS_VERSION` selects one of three
    layouts: the version-2 table as it is, a version-1 copy without
    categories, or version-0 variables whose value is the string
    "label; default|other|...".

    A `string` here is the text of a C string before its terminating NUL, so
    `strlen` is the length and `strcpy`/`strcat` are concatenation. */
module OptionPublisher {
  import opened Base
  import opened OptionTable

  // ---------------------------------------------------------------------
  // Reading up to the NULL entries
  // ---------------------------------------------------------------------

  /** The number of options before the first one whose key is NULL. */
  function OptionsBeforeSentinel(defs: seq<Definition>): (n: nat)
    ensures n <= |defs|
    ensures forall k | 0 <= k < n :: defs[k].key.Some?
    ensures n < |defs| ==> defs[n].key.None?
  {
    if defs == [] || defs[0].key.None? then 0 else 1 + OptionsBeforeSentinel(defs[1..])
  }

  /** The number of values before the first one that is NULL. */
  function ValuesBeforeTerminator(values: seq<OptionValue>): (n: nat)
    ensures n <= |values|
    ensures forall k | 0 <= k < n :: values[k].value.Some?
    ensures n < |values| ==> values[n].value.None?
  {
    if values == [] || values[0].value.None? then 0 else 1 + ValuesBeforeTerminator(values[1..])
  }

  /** The table has its sentinel, so the counting loop stops inside it. */
  predicate HasSentinel(defs: seq<Definition>)
  {
    OptionsBeforeSentinel(defs) < |defs|
  }

  /** The value list has its `{NULL, NULL}` terminator. */
  predicate Terminated(values: seq<OptionValue>)
  {
    ValuesBeforeTerminator(values) < |values|
  }

  /** The texts of a list of non-NULL values. */
  function Texts(values: seq<OptionValue>): (ts: seq<string>)
    requires forall k | 0 <= k < |values| :: values[k].value.Some?
    ensures |ts| == |values|
    ensures forall k | 0 <= k < |values| :: ts[k] == values[k].value.value
  {
    if values == [] then [] else Texts(values[..|values| - 1]) + [values[|values| - 1].value.value]
  }

  /** The values an option lists, in order. */
  function ListedValues(values: seq<OptionValue>): seq<string>
  {
    Texts(values[..ValuesBeforeTerminator(values)])
  }

  // ---------------------------------------------------------------------
  // The version-0 value string
  // ---------------------------------------------------------------------

  /** The last index holding `d`, if any. */
  function LastMatch(vals: seq<string>, d: string): (r: Option<nat>)
    ensures r.Some? ==> r.value < |vals| && vals[r.value] == d
    ensures r.Some? ==> forall k | r.value < k < |vals| :: vals[k] != d
    ensures r.None? ==> forall k | 0 <= k < |vals| :: vals[k] != d
  {
    if vals == [] then None
    else if vals[|vals| - 1] == d then Some(|vals| - 1)
    else LastMatch(vals[..|vals| - 1], d)
  }

  /** `default_index`: the last value equal to the default, or 0 when the
      default is NULL or not listed. */
  function DefaultIndex(vals: seq<string>, defaultValue: Option<string>): (di: nat)
    ensures |vals| > 0 ==> di < |vals|
    ensures defaultValue.Some? && defaultValue.value in vals ==>
              vals[di] == defaultValue.value && forall k | di < k < |vals| :: vals[k] != defaultValue.value
    ensures defaultValue.None? || defaultValue.value !in vals ==> di == 0
  {
    if defaultValue.None? then 0
    else match LastMatch(vals, defaultValue.value)
      case None => 0
      case Some(k) => k
  }

  /** The values with the one at `di` moved to the front: the same values,
      the default first, the others in their original order. */
  function DefaultFirst(vals: seq<string>, di: nat): (r: seq<string>)
    requires di < |vals|
    ensures |r| == |vals| && r[0] == vals[di]
    ensures multiset(r) == multiset(vals)
    ensures r[1..] == vals[..di] + vals[di + 1..]
  {
    assert vals == vals[..di] + [vals[di]] + vals[di + 1..];
    [vals[di]] + vals[..di] + vals[di + 1..]
  }

  /** `"|" + x` for every element, in order. */
  function Bars(xs: seq<string>): string
  {
    if xs == [] then "" else Bars(xs[..|xs| - 1]) + "|" + xs[|xs| - 1]
  }

  /** The elements separated by "|". */
  function Join(xs: seq<string>): string
    requires xs != []
  {
    xs[0] + Bars(xs[1..])
  }

  function SumLengths(xs: seq<string>): nat
  {
    if xs == [] then 0 else SumLengths(xs[..|xs| - 1]) + |xs[|xs| - 1]|
  }

  /** The value a version-0 variable gets for an option: NULL when the
      label is NULL or no value is listed, otherwise the label, "; ", then
      the values with the default first, separated by "|". */
  function V0Value(desc: Option<string>, values: seq<OptionValue>, defaultValue: Option<string>): Option<string>
  {
    var vals := ListedValues(values);
    if desc.None? || vals == [] then None
    else Some(desc.value + "; " + Join(DefaultFirst(vals, DefaultIndex(vals, defaultValue))))
  }

  lemma {:induction false} BarsLength(xs: seq<string>)
    ensures |Bars(xs)| == SumLengths(xs) + |xs|
  {
    if xs != [] {
      BarsLength(xs[..|xs| - 1]);
    }
  }

  lemma {:induction false} SumLengthsAppend(a: seq<string>, b: seq<string>)
    ensures SumLengths(a + b) == SumLengths(a) + SumLengths(b)
  {
    if b != [] {
      assert (a + b)[..|a + b| - 1] == a + b[..|b| - 1];
      assert (a + b)[|a + b| - 1] == b[|b| - 1];
      SumLengthsAppend(a, b[..|b| - 1]);
    } else {
      assert a + b == a;
    }
  }

  /** The values before `j`, leaving out the one at `di`. */
  function Skip(vals: seq<string>, di: nat, j: nat): seq<string>
    requires di < |vals| && j <= |vals|
  {
    if j <= di then vals[..j] else vals[..di] + vals[di + 1..j]
  }

  lemma SkipStep(vals: seq<string>, di: nat, j: nat)
    requires di < |vals| && j < |vals|
    ensures j == di ==> Skip(vals, di, j + 1) == Skip(vals, di, j)
    ensures j != di ==> Skip(vals, di, j + 1) == Skip(vals, di, j) + [vals[j]]
  {
    if j > di {
      assert vals[di + 1..j + 1] == vals[di + 1..j] + [vals[j]];
    } else if j < di {
      assert vals[..j + 1] == vals[..j] + [vals[j]];
    }
  }

  lemma BarsSnoc(xs: seq<string>, x: string)
    ensures Bars(xs + [x]) == Bars(xs) + "|" + x
  {
    assert (xs + [x])[..|xs + [x]| - 1] == xs;
  }

  lemma TextsSnoc(values: seq<OptionValue>, n: nat)
    requires n < |values|
    requires forall k | 0 <= k <= n :: values[k].value.Some?
    ensures Texts(values[..n + 1]) == Texts(values[..n]) + [values[n].value.value]
  {
    assert values[..n + 1][..n] == values[..n];
  }

  lemma LastMatchSnoc(xs: seq<string>, x: string, d: string)
    ensures LastMatch(xs + [x], d) == if x == d then Some(|xs|) else LastMatch(xs, d)
  {
    assert (xs + [x])[..|xs + [x]| - 1] == xs;
  }

  /** The first loop over one option's values in the version-0 branch: it
      counts them, finds the default's index, and adds their lengths to the
      buffer length, which starts at 3. */
  method ScanValues(values: seq<OptionValue>, defaultValue: Option<string>)
    returns (numValues: nat, defaultIndex: nat, bufLen: nat)
    requires Terminated(values)
    ensures numValues == |ListedValues(values)|
    ensures defaultIndex == DefaultIndex(ListedValues(values), defaultValue)
    ensures bufLen == 3 + SumLengths(ListedValues(values))
  {
    bufLen := 3;
    defaultIndex := 0;
    numValues := 0;
    while values[numValues].value.Some?
      invariant Scanned(values, defaultValue, numValues, defaultIndex, bufLen)
      decreases ValuesBeforeTerminator(values) - numValues
    {
      var value := values[numValues].value.value;
      ScanStep(values, numValues, defaultValue);
      if defaultValue.Some? && value == defaultValue.value {
        defaultIndex := numValues;
      }
      bufLen := bufLen + |value|;
      numValues := numValues + 1;
    }
    ScanDone(values, defaultValue, numValues, defaultIndex, bufLen);
  }

  /** The first loop stops at the terminator, having seen every value. */
  lemma ScanDone(values: seq<OptionValue>, defaultValue: Option<string>, n: nat, defaultIndex: nat, bufLen: nat)
    requires Scanned(values, defaultValue, n, defaultIndex, bufLen)
    requires n < |values| && values[n].value.None?
    ensures n == |ListedValues(values)|
    ensures defaultIndex == DefaultIndex(ListedValues(values), defaultValue)
    ensures bufLen == 3 + SumLengths(ListedValues(values))
  {
  }

  /** The first loop's state after `n` values. */
  predicate Scanned(values: seq<OptionValue>, defaultValue: Option<string>, n: nat, defaultIndex: nat, bufLen: nat)
  {
    && n <= ValuesBeforeTerminator(values)
    && bufLen == 3 + SumLengths(Texts(values[..n]))
    && defaultIndex == DefaultIndex(Texts(values[..n]), defaultValue)
  }

  /** One step of the first loop: one more value adds its length and, when
      it equals the default, becomes the default's index. */
  lemma ScanStep(values: seq<OptionValue>, n: nat, defaultValue: Option<string>)
    requires n < ValuesBeforeTerminator(values)
    ensures var x := values[n].value.value;
      && SumLengths(Texts(values[..n + 1])) == SumLengths(Texts(values[..n])) + |x|
      && DefaultIndex(Texts(values[..n + 1]), defaultValue)
         == if defaultValue.Some? && x == defaultValue.value then n
            else DefaultIndex(Texts(values[..n]), defaultValue)
  {
    var xs := Texts(values[..n]);
    var x := values[n].value.value;
    TextsSnoc(values, n);
    assert (xs + [x])[..|xs + [x]| - 1] == xs;
    if defaultValue.Some? {
      LastMatchSnoc(xs, x, defaultValue.value);
    }
  }

  /** The second loop: the label, "; ", the default, then "|" and each
      other value in order. */
  method JoinValues(desc: string, values: seq<OptionValue>, defaultIndex: nat) returns (s: string)
    requires Terminated(values)
    requires defaultIndex < |ListedValues(values)|
    ensures s == desc + "; " + Join(DefaultFirst(ListedValues(values), defaultIndex))
  {
    ghost var vals := ListedValues(values);
    var numValues := ValuesBeforeTerminator(values);
    s := desc + "; " + values[defaultIndex].value.value;
    JoinEnds(desc, vals, defaultIndex);
    var j := 0;
    while j < numValues
      invariant j <= numValues
      invariant s == Joined(desc, vals, defaultIndex, j)
    {
      JoinStep(desc, vals, defaultIndex, j);
      if j != defaultIndex {
        s := s + "|" + values[j].value.value;
      }
      j := j + 1;
    }
  }

  /** What the second loop has built after `j` steps. */
  function Joined(desc: string, vals: seq<string>, di: nat, j: nat): string
    requires di < |vals| && j <= |vals|
  {
    desc + "; " + vals[di] + Bars(Skip(vals, di, j))
  }

  lemma JoinEnds(desc: string, vals: seq<string>, di: nat)
    requires di < |vals|
    ensures Joined(desc, vals, di, 0) == desc + "; " + vals[di]
    ensures Joined(desc, vals, di, |vals|) == desc + "; " + Join(DefaultFirst(vals, di))
  {
    assert Skip(vals, di, 0) == [];
    assert Skip(vals, di, |vals|) == DefaultFirst(vals, di)[1..];
  }

  lemma JoinStep(desc: string, vals: seq<string>, di: nat, j: nat)
    requires di < |vals| && j < |vals|
    ensures j == di ==> Joined(desc, vals, di, j + 1) == Joined(desc, vals, di, j)
    ensures j != di ==> Joined(desc, vals, di, j + 1) == Joined(desc, vals, di, j) + "|" + vals[j]
  {
    SkipStep(vals, di, j);
    if j != di {
      BarsSnoc(Skip(vals, di, j), vals[j]);
    }
  }

  /** 3 + the lengths of the values + one separator between each two + the
      label is the length of the value string plus its NUL. */
  lemma BufferFits(desc: string, vals: seq<string>, di: nat)
    requires di < |vals|
    ensures 3 + SumLengths(vals) + (|vals| - 1) + |desc|
         == |desc + "; " + Join(DefaultFirst(vals, di))| + 1
  {
    var rest := vals[..di] + vals[di + 1..];
    assert DefaultFirst(vals, di)[1..] == rest;
    BarsLength(rest);
    assert vals == vals[..di] + [vals[di]] + vals[di + 1..];
    SumLengthsAppend(vals[..di] + [vals[di]], vals[di + 1..]);
    SumLengthsAppend(vals[..di], [vals[di]]);
    SumLengthsAppend(vals[..di], vals[di + 1..]);
    assert SumLengths([vals[di]]) == |vals[di]| by {
      assert [vals[di]][..0] == [];
    }
  }

  /** The body of the loop over one option in the version-0 branch. The
      buffer length it computes is exactly the string's length plus its
      terminating NUL, so the `calloc`ed buffer fits the string. */
  method BuildValue(desc: string, values: seq<OptionValue>, defaultValue: Option<string>)
    returns (value: Option<string>, bufLen: nat)
    requires Terminated(values)
    ensures value == V0Value(Some(desc), values, defaultValue)
    ensures value.Some? ==> bufLen == |value.value| + 1
  {
    var numValues, defaultIndex;
    numValues, defaultIndex, bufLen := ScanValues(values, defaultValue);
    if numValues > 0 {
      bufLen := bufLen + (numValues - 1) + |desc|;
      var s := JoinValues(desc, values, defaultIndex);
      BufferFits(desc, ListedValues(values), defaultIndex);
      value := Some(s);
    } else {
      value := None;
    }
  }

  // ---------------------------------------------------------------------
  // The three layouts
  // ---------------------------------------------------------------------

  /** A version-1 option: no categories, no categorised texts. */
  datatype V1Definition = V1Definition(
    key: Option<string>,
    desc: Option<string>,
    info: Option<string>,
    values: seq<OptionValue>,
    defaultValue: Option<string>)

  /** The zeroed entry `calloc` leaves after the copied options. */
  const V1Terminator: V1Definition := V1Definition(None, None, None, [Terminator], None)

  /** The version-1 copy of an option: the listed value/label pairs, then
      the zeroed pair that ends the list. */
  function V1Of(d: Definition): V1Definition
  {
    V1Definition(d.key, d.desc, d.info, d.values[..ValuesBeforeTerminator(d.values)] + [Terminator], d.defaultValue)
  }

  /** A version-0 variable. */
  datatype Variable = Variable(key: Option<string>, value: Option<string>)

  function V0Of(d: Definition): Variable
  {
    Variable(d.key, V0Value(d.desc, d.values, d.defaultValue))
  }

  datatype Published =
    | V2(categories: seq<Category>, definitions: seq<Definition>)
    | V1(definitionsV1: seq<V1Definition>)
    | V0(variables: seq<Variable>)

  /** The version the host reports; a failed query counts as 0. */
  function Version(reply: Option<nat>): (v: nat)
    ensures reply.None? ==> v == 0
    ensures reply.Some? ==> v == reply.value
  {
    if reply.None? then 0 else reply.value
  }

  /** The loop that counts the options. */
  method CountOptions(defs: seq<Definition>) returns (n: nat)
    requires HasSentinel(defs)
    ensures n < |defs| && defs[n].key.None?
    ensures forall k | 0 <= k < n :: defs[k].key.Some?
    ensures n == OptionsBeforeSentinel(defs)
  {
    n := 0;
    while defs[n].key.Some?
      invariant n <= OptionsBeforeSentinel(defs)
      decreases OptionsBeforeSentinel(defs) - n
    {
      n := n + 1;
    }
  }

  /** The loop that copies one option's values, up to the NULL value. */
  method CopyValues(values: seq<OptionValue>) returns (copied: seq<OptionValue>)
    requires Terminated(values)
    ensures copied == values[..ValuesBeforeTerminator(values)] + [Terminator]
  {
    var k := 0;
    copied := [];
    while values[k].value.Some?
      invariant k <= ValuesBeforeTerminator(values)
      invariant copied == values[..k]
      decreases ValuesBeforeTerminator(values) - k
    {
      copied := copied + [OptionValue(values[k].value, values[k].caption)];
      k := k + 1;
    }
    copied := copied + [Terminator];
  }

  /** The version-1 branch: `num_options + 1` entries, the copies then the
      zeroed terminator. */
  method CopyV1(defs: seq<Definition>, n: nat) returns (v1: seq<V1Definition>)
    requires n < |defs|
    requires forall i | 0 <= i < n :: Terminated(defs[i].values)
    ensures |v1| == n + 1 && v1[n] == V1Terminator
    ensures forall i | 0 <= i < n :: v1[i] == V1Of(defs[i])
  {
    v1 := [];
    var i := 0;
    while i < n
      invariant i <= n && |v1| == i
      invariant forall k | 0 <= k < i :: v1[k] == V1Of(defs[k])
    {
      var d := defs[i];
      var values := CopyValues(d.values);
      v1 := v1 + [V1Definition(d.key, d.desc, d.info, values, d.defaultValue)];
      i := i + 1;
    }
    v1 := v1 + [V1Terminator];
  }

  /** The version-0 branch: one variable per option, the option's key even
      when its value is NULL, then the zeroed terminator. */
  method BuildVariables(defs: seq<Definition>, n: nat) returns (vars: seq<Variable>)
    requires n < |defs|
    requires forall i | 0 <= i < n :: defs[i].desc.Some? ==> Terminated(defs[i].values)
    ensures |vars| == n + 1 && vars[n] == Variable(None, None)
    ensures forall i | 0 <= i < n :: vars[i] == V0Of(defs[i])
  {
    vars := [];
    var i := 0;
    while i < n
      invariant i <= n && |vars| == i
      invariant forall k | 0 <= k < i :: vars[k] == V0Of(defs[k])
    {
      var value: Option<string> := None;
      if defs[i].desc.Some? {
        var bufLen;
        value, bufLen := BuildValue(defs[i].desc.value, defs[i].values, defs[i].defaultValue);
      }
      vars := vars + [Variable(defs[i].key, value)];
      i := i + 1;
    }
    vars := vars + [Variable(None, None)];
  }

  /** `libretro_set_core_options`. Version 2 or later gets the categories and
      the table unchanged; version 1 the copy of every option before the
      sentinel; anything lower, or a failed query, the variables. The loops
      read up to the sentinel, and up to the NULL value of every option they
      copy, so the table must have them. */
  method Publish(cats: seq<Category>, defs: seq<Definition>, versionReply: Option<nat>) returns (p: Published)
    requires Version(versionReply) < 2 ==> HasSentinel(defs)
    requires Version(versionReply) == 1 ==>
      forall i | 0 <= i < OptionsBeforeSentinel(defs) :: Terminated(defs[i].values)
    requires Version(versionReply) == 0 ==>
      forall i | 0 <= i < OptionsBeforeSentinel(defs) :: defs[i].desc.Some? ==> Terminated(defs[i].values)
    ensures p.V2? <==> Version(versionReply) >= 2
    ensures p.V1? <==> Version(versionReply) == 1
    ensures p.V0? <==> Version(versionReply) == 0
    ensures p.V2? ==> p == V2(cats, defs)
    ensures p.V1? ==>
      var n := OptionsBeforeSentinel(defs);
      |p.definitionsV1| == n + 1 && p.definitionsV1[n] == V1Terminator
      && forall i | 0 <= i < n :: p.definitionsV1[i] == V1Of(defs[i])
    ensures p.V0? ==>
      var n := OptionsBeforeSentinel(defs);
      |p.variables| == n + 1 && p.variables[n] == Variable(None, None)
      && forall i | 0 <= i < n :: p.variables[i] == V0Of(defs[i])
  {
    var version := if versionReply.None? then 0 else versionReply.value;
    if version >= 2 {
      p := V2(cats, defs);
    } else {
      var n := CountOptions(defs);
      if version >= 1 {
        var v1 := CopyV1(defs, n);
        p := V1(v1);
      } else {
        var vars := BuildVariables(defs, n);
        p := V0(vars);
      }
    }
  }

  // ---------------------------------------------------------------------
  // Properties
  // ---------------------------------------------------------------------

  /** The version-1 copy keeps every listed value/label pair in order, and
      its list ends right after them. */
  lemma V1KeepsValues(d: Definition)
    ensures var c := V1Of(d);
      && c.key == d.key && c.desc == d.desc && c.info == d.info && c.defaultValue == d.defaultValue
      && ValuesBeforeTerminator(c.values) == ValuesBeforeTerminator(d.values)
      && Terminated(c.values)
      && c.values[..ValuesBeforeTerminator(d.values)] == d.values[..ValuesBeforeTerminator(d.values)]
  {
    var n := ValuesBeforeTerminator(d.values);
    var c := V1Of(d);
    assert c.values[n] == Terminator;
    assert c.values[..n] == d.values[..n];
  }

  /** A version-0 value lists every value of the option exactly as often as
      the option does, the default first. */
  lemma V0ValueListsEveryValue(desc: string, values: seq<OptionValue>, defaultValue: Option<string>)
    requires ListedValues(values) != []
    ensures var vals := ListedValues(values);
      var order := DefaultFirst(vals, DefaultIndex(vals, defaultValue));
      && V0Value(Some(desc), values, defaultValue) == Some(desc + "; " + Join(order))
      && multiset(order) == multiset(vals)
      && (defaultValue.Some? && defaultValue.value in vals ==> order[0] == defaultValue.value)
  {
  }

  /** Values terminated at `m` list exactly `m` values. */
  lemma TerminatedAt(values: seq<OptionValue>, m: nat)
    requires ValuesTerminatedAt(values, m)
    ensures ValuesBeforeTerminator(values) == m
  {
  }

  /** The counting loop stops at the sentinel: thirty options. */
  lemma TableHasThirtyOptions()
    ensures HasSentinel(Definitions)
    ensures OptionsBeforeSentinel(Definitions) == OptionCount
    ensures forall i | 0 <= i < OptionCount :: Terminated(Definitions[i].values)
  {
    TableShape();
    forall i | 0 <= i < OptionCount
      ensures Terminated(Definitions[i].values)
    {
      TerminatedAt(Definitions[i].values, 2);
    }
  }

  /** The listed values of a two-value list. */
  lemma TwoValues(values: seq<OptionValue>)
    requires ValuesTerminatedAt(values, 2)
    ensures ListedValues(values) == [values[0].value.value, values[1].value.value]
  {
    TerminatedAt(values, 2);
    var vals := ListedValues(values);
    assert |vals| == 2 && vals[0] == values[0].value.value && vals[1] == values[1].value.value;
  }

  lemma JoinTwo(x: string, y: string)
    ensures Join([x, y]) == x + "|" + y
  {
    assert [x, y][1..] == [y];
    assert [y][..0] == [];
    assert Bars([y]) == Bars([]) + "|" + y;
  }

  lemma Regroup<T>(a: seq<T>, b: seq<T>, c: seq<T>, d: seq<T>)
    ensures a + (b + c + d) == a + b + c + d
  {
  }

  lemma DefaultFirstOfTwo(vals: seq<string>)
    requires |vals| == 2
    ensures DefaultFirst(vals, 0) == vals
    ensures DefaultFirst(vals, 1) == [vals[1], vals[0]]
  {
  }

  /** How a two-value option reads as a version-0 variable: its default
      first, then the other value. */
  lemma TwoValueVariable(desc: string, values: seq<OptionValue>, defaultValue: string)
    requires ValuesTerminatedAt(values, 2)
    requires defaultValue == values[0].value.value || defaultValue == values[1].value.value
    ensures var other := if defaultValue == values[1].value.value then values[0].value.value else values[1].value.value;
      V0Value(Some(desc), values, Some(defaultValue)) == Some(desc + "; " + defaultValue + "|" + other)
  {
    TwoValues(values);
    var vals := ListedValues(values);
    var di := DefaultIndex(vals, Some(defaultValue));
    assert vals[0] == defaultValue || vals[1] == defaultValue;
    assert di == (if defaultValue == vals[1] then 1 else 0);
    DefaultFirstOfTwo(vals);
    var other := if di == 1 then vals[0] else vals[1];
    assert DefaultFirst(vals, di) == [defaultValue, other];
    JoinTwo(defaultValue, other);
    assert V0Value(Some(desc), values, Some(defaultValue)) == Some(desc + "; " + Join([defaultValue, other]));
    Regroup(desc + "; ", defaultValue, "|", other);
    assert other == if defaultValue == values[1].value.value then values[0].value.value else values[1].value.value;
  }

  /** An on/off option reaches a version-0 host as its label followed by its
      default and then the other state. */
  lemma ToggleAsVariable(key: string, t: Text, category: string, defaultValue: string)
    requires defaultValue == Enabled || defaultValue == Disabled
    ensures V0Of(Toggle(key, t, category, defaultValue)).value
         == Some(t.desc + "; " + defaultValue + "|" + (if defaultValue == Enabled then Disabled else Enabled))
  {
    TwoValueVariable(t.desc, ToggleValues, defaultValue);
  }

  /** The TV-standard option reaches a version-0 host as
      "Console > TV Standard; ntsc|pal": its default, NTSC, comes first. */
  lemma TvStandardAsVariable()
    ensures V0Of(TvStandard).value == Some("Console > TV Standard; ntsc|pal")
  {
    TwoValueVariable(TvStandard.desc.value, TvStandard.values, "ntsc");
    assert "Console > TV Standard" + "; " + "ntsc" + "|" + "pal" == "Console > TV Standard; ntsc|pal";
  }
}
