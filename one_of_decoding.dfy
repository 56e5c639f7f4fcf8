/** The converter `GenerateJsonConvertersForOneOf` emits for a oneOf base
    record (Generator/DataClassGenerator.cs): its `Read` is a state machine
    over the JSON reader's tokens that picks the variant to instantiate and
    stores the scalar values it meets, and then assigns them to the
    variant's properties. The reflection the emitted code uses
    (`GetProperties`, `JsonPropertyName` attributes) is replaced by a table
    per variant of its C# property names and their JSON names. */
module OneOfDecoding {
  import opened Wrappers
  import opened Dictionaries
  import opened Models
  import BaseGenerator

  /** `JsonTokenType`: every member, so the emitted `default` arm (which
      throws) is unreachable. A number is kept as its literal text. */
  datatype Token =
    | StartObject | EndObject | StartArray | EndArray
    | PropertyName(name: string)
    | NoneToken | Comment
    | StringToken(text: string) | NumberToken(literal: string)
    | TrueToken | FalseToken | NullToken

  /** What the emitted code stores for a property: `GetString()`,
      `GetDouble()` (left uninterpreted), `true`/`false`, or `null`. */
  datatype Value = StringValue(text: string) | NumberValue(literal: string) | BoolValue(b: bool) | NullValue

  /** A variant class as reflection sees it: each property's C# name, the
      name of its `[JsonPropertyName]` attribute and its declared type
      (without the `?` of a nullable property). */
  datatype VariantTable = VariantTable(className: string, properties: seq<(string, string, string)>)

  /** `Decoded(v, a)`: an instance of variant `v` on which the properties in
      `a` were set to their values, in that order. */
  datatype Decoded = Decoded(variant: nat, assignments: seq<(string, Value)>)

  /** The table of one generated class. */
  function TableOf(c: Class): VariantTable {
    VariantTable(c.name, seq(|c.properties|, i requires 0 <= i < |c.properties| => (c.properties[i].name, c.properties[i].jsonName, c.properties[i].typeName)))
  }

  /** The tables of a converter's variants: every class it holds after the
      base record, which has no properties of its own to inherit. */
  function ConverterTables(conv: OneOfConverter): seq<VariantTable> {
    if conv.oneOfs == [] then []
    else seq(|conv.oneOfs| - 1, i requires 0 <= i < |conv.oneOfs| - 1 => TableOf(conv.oneOfs[i + 1]))
  }

  /** `_propertiesFor{className}`: the C# names. */
  function Names(t: VariantTable): (ns: seq<string>)
    ensures |ns| == |t.properties|
  {
    seq(|t.properties|, i requires 0 <= i < |t.properties| => t.properties[i].0)
  }

  function JsonNames(t: VariantTable): (ns: seq<string>)
    ensures |ns| == |t.properties|
  {
    seq(|t.properties|, i requires 0 <= i < |t.properties| => t.properties[i].1)
  }

  /** The first position at or after `k` holding `x`. */
  function FindFirst(s: seq<string>, x: string, k: nat): (r: Option<nat>)
    ensures r.Some? ==> k <= r.value < |s| && s[r.value] == x && forall j :: k <= j < r.value ==> s[j] != x
    ensures r.None? ==> forall j :: k <= j < |s| ==> s[j] != x
    decreases |s| - k
  {
    if k >= |s| then None
    else if s[k] == x then Some(k)
    else FindFirst(s, x, k + 1)
  }

  // ------------------------------------------------------ the specification

  /** The emitted `if (_propertiesFor{className}.Contains(propertyName))`
      blocks, from variant `k` on: at depth 0 the first variant that has
      the property becomes the result unless one is already chosen
      (`result ??= new ...`); deeper, every variant that has it adds the
      name to the values with `Add`, which throws on a present key. */
  function MatchLoop(tables: seq<VariantTable>, name: string, scope: nat, k: nat,
                     result: Option<nat>, values: Dict<Value>): Result<(Option<nat>, Dict<Value>), Exception>
    requires k <= |tables|
    decreases |tables| - k
  {
    if k == |tables| then Success((result, values))
    else if name in Names(tables[k]) then
      if scope == 0 then
        MatchLoop(tables, name, scope, k + 1, if result.None? then Some(k) else result, values)
      else if HasKey(values, name) then Failure(DuplicateKey(name))
      else MatchLoop(tables, name, scope, k + 1, result, values + [(name, NullValue)])
    else MatchLoop(tables, name, scope, k + 1, result, values)
  }

  /** The position of the property a stored key is assigned to:
      `GetProperty(key)` by C# name first, else the first property whose
      JSON name is the key. */
  function ResolveIndex(t: VariantTable, key: string): (r: Option<nat>)
    ensures r.None? <==> key !in Names(t) && key !in JsonNames(t)
    ensures r.Some? ==> r.value < |t.properties|
    ensures key in Names(t) ==> r.Some? && t.properties[r.value].0 == key
    ensures key !in Names(t) && r.Some? ==>
      t.properties[r.value].1 == key && forall i :: 0 <= i < r.value ==> t.properties[i].1 != key
  {
    match FindFirst(Names(t), key, 0)
    case Some(i) => Some(i)
    case None =>
      assert forall i :: 0 <= i < |t.properties| ==> JsonNames(t)[i] == t.properties[i].1;
      FindFirst(JsonNames(t), key, 0)
  }

  /** The C# name of the property a stored key is assigned to. */
  function ResolveKey(t: VariantTable, key: string): (r: Option<string>)
    ensures r.None? <==> key !in Names(t) && key !in JsonNames(t)
    ensures key in Names(t) ==> r == Some(key)
    ensures r.Some? ==> r.value in Names(t)
  {
    match ResolveIndex(t, key)
    case Some(i) => assert Names(t)[i] == t.properties[i].0; Some(t.properties[i].0)
    case None => None
  }

  /** Whether `PropertyInfo.SetValue` accepts a stored value for a property
      declared with type `typeName`: `null` fits every property (a value
      type gets its default); a boxed `string`, `double` or `bool` fits a
      property of that type, of its nullable form, or of type `object`,
      and no other. */
  predicate Fits(typeName: string, v: Value) {
    match v
    case NullValue => true
    case StringValue(_) => typeName == "string" || typeName == "object"
    case NumberValue(_) => typeName == "double" || typeName == "object"
    case BoolValue(_) => typeName == "bool" || typeName == "object"
  }

  /** A stored entry resolves to a property that accepts its value. */
  predicate Assignable(t: VariantTable, e: (string, Value))
    ensures Assignable(t, e) ==> ResolveKey(t, e.0).Some?
  {
    match ResolveIndex(t, e.0)
    case None => false
    case Some(i) => Fits(t.properties[i].2, e.1)
  }

  /** What the assignment of an entry throws when it is not assignable. */
  function AssignmentError(t: VariantTable, e: (string, Value)): (x: Exception)
    ensures ResolveKey(t, e.0).None? ==> x == PropertyNotFound(e.0)
    ensures ResolveKey(t, e.0).Some? ==> x == ValueNotAssignable(ResolveKey(t, e.0).value)
  {
    match ResolveIndex(t, e.0)
    case None => PropertyNotFound(e.0)
    case Some(i) => ValueNotAssignable(t.properties[i].0)
  }

  /** The `foreach (var pair in _valuesFor...)` loop from entry `j` on:
      find the property, then `SetValue`, which throws when the value does
      not fit the property's type. */
  function ResolveLoop(t: VariantTable, values: Dict<Value>, j: nat, acc: seq<(string, Value)>)
    : Result<seq<(string, Value)>, Exception>
    requires j <= |values|
    decreases |values| - j
  {
    if j == |values| then Success(acc)
    else match ResolveIndex(t, values[j].0)
      case None => Failure(PropertyNotFound(values[j].0))
      case Some(i) =>
        if !Fits(t.properties[i].2, values[j].1) then Failure(ValueNotAssignable(t.properties[i].0))
        else ResolveLoop(t, values, j + 1, acc + [(t.properties[i].0, values[j].1)])
  }

  predicate ValidResult(tables: seq<VariantTable>, result: Option<nat>) {
    result.Some? ==> result.value < |tables|
  }

  /** The locals of `Read` (`scopeCount`, `currentProperty`, `result`) and
      the converter's values. */
  datatype ReaderState = ReaderState(scope: nat, current: string, result: Option<nat>, values: Dict<Value>)

  /** The state `Read` starts in, on values left by earlier reads. */
  function Initial(values: Dict<Value>): ReaderState {
    ReaderState(0, "", None, values)
  }

  predicate IsEnd(t: Token) {
    t.EndObject? || t.EndArray?
  }

  /** One token other than a closing one: an opening token goes one level
      deeper, a property name becomes the current property and is matched
      against the variants, a scalar is stored under the current property
      (replacing an earlier value), `None` and comments change nothing. */
  function Advance(tables: seq<VariantTable>, t: Token, st: ReaderState): (r: Result<ReaderState, Exception>)
    requires !IsEnd(t) && ValidResult(tables, st.result)
    ensures r.Success? ==> ValidResult(tables, r.value.result)
  {
    match t
    case StartObject => Success(st.(scope := st.scope + 1))
    case StartArray => Success(st.(scope := st.scope + 1))
    case PropertyName(name) =>
      MatchLoopValid(tables, name, st.scope, 0, st.result, st.values);
      var m :- MatchLoop(tables, name, st.scope, 0, st.result, st.values);
      Success(ReaderState(st.scope, name, m.0, m.1))
    case NoneToken => Success(st)
    case Comment => Success(st)
    case StringToken(text) => Success(st.(values := Set(st.values, st.current, StringValue(text))))
    case NumberToken(literal) => Success(st.(values := Set(st.values, st.current, NumberValue(literal))))
    case TrueToken => Success(st.(values := Set(st.values, st.current, BoolValue(true))))
    case FalseToken => Success(st.(values := Set(st.values, st.current, BoolValue(false))))
    case NullToken => Success(st.(values := Set(st.values, st.current, NullValue)))
  }

  /** A closing token at depth 0: without a chosen variant the read throws;
      otherwise the stored values are assigned to it. */
  function Finish(tables: seq<VariantTable>, st: ReaderState): Result<(Decoded, Dict<Value>), Exception>
    requires ValidResult(tables, st.result)
  {
    if st.result.None? then Failure(OneOfUndetermined)
    else
      var assignments :- ResolveLoop(tables[st.result.value], st.values, 0, []);
      Success((Decoded(st.result.value, assignments), st.values))
  }

  /** The `while (reader.Read())` loop from token `i` on. On success it
      returns the decoded instance and the values as they are left. */
  function Run(tables: seq<VariantTable>, tokens: seq<Token>, i: nat, st: ReaderState): Result<(Decoded, Dict<Value>), Exception>
    requires i <= |tokens| && ValidResult(tables, st.result)
    decreases |tokens| - i
  {
    if i == |tokens| then Failure(IncompleteJson)
    else if IsEnd(tokens[i]) then
      if st.scope == 0 then Finish(tables, st)
      else Run(tables, tokens, i + 1, st.(scope := st.scope - 1))
    else
      var st' :- Advance(tables, tokens[i], st);
      Run(tables, tokens, i + 1, st')
  }

  /** A read on values left by earlier reads. */
  function ReadOn(tables: seq<VariantTable>, tokens: seq<Token>, values: Dict<Value>): Result<(Decoded, Dict<Value>), Exception> {
    Run(tables, tokens, 0, Initial(values))
  }

  /** A read that starts from no stored values. */
  function Decode(tables: seq<VariantTable>, tokens: seq<Token>): Result<Decoded, Exception> {
    var r :- ReadOn(tables, tokens, []);
    Success(r.0)
  }

  /** `Write` throws `NotImplementedException` for every value. */
  function Write(value: Decoded): (r: Result<(), Exception>)
    ensures r.Failure? && r.error == WriteNotImplemented
  {
    Failure(WriteNotImplemented)
  }

  // ----------------------------------------------------------------- lemmas

  lemma {:induction false} MatchLoopValid(tables: seq<VariantTable>, name: string, scope: nat, k: nat,
                                          result: Option<nat>, values: Dict<Value>)
    requires k <= |tables| && ValidResult(tables, result)
    ensures var r := MatchLoop(tables, name, scope, k, result, values);
      r.Success? ==> ValidResult(tables, r.value.0)
    decreases |tables| - k
  {
    if k < |tables| {
      if name in Names(tables[k]) {
        if scope == 0 {
          MatchLoopValid(tables, name, scope, k + 1, if result.None? then Some(k) else result, values);
        } else if !HasKey(values, name) {
          MatchLoopValid(tables, name, scope, k + 1, result, values + [(name, NullValue)]);
        }
      } else {
        MatchLoopValid(tables, name, scope, k + 1, result, values);
      }
    }
  }

  /** The first variant at or after `k` that has a property of C# name `name`. */
  function FirstVariantWith(tables: seq<VariantTable>, name: string, k: nat): (r: Option<nat>)
    ensures r.Some? ==> k <= r.value < |tables| && name in Names(tables[r.value])
    ensures r.Some? ==> forall j :: k <= j < r.value ==> name !in Names(tables[j])
    ensures r.None? ==> forall j :: k <= j < |tables| ==> name !in Names(tables[j])
    decreases |tables| - k
  {
    if k >= |tables| then None
    else if name in Names(tables[k]) then Some(k)
    else FirstVariantWith(tables, name, k + 1)
  }

  /** How many variants at or after `k` have a property of C# name `name`. */
  function VariantsWith(tables: seq<VariantTable>, name: string, k: nat): nat
    decreases |tables| - k
  {
    if k >= |tables| then 0
    else (if name in Names(tables[k]) then 1 else 0) + VariantsWith(tables, name, k + 1)
  }

  /** At depth 0 a property name never fails and never stores anything: a
      result already chosen stays, else the first variant declaring the
      name is chosen (first match wins). */
  lemma {:induction false} MatchAtTopLevel(tables: seq<VariantTable>, name: string, k: nat,
                                           result: Option<nat>, values: Dict<Value>)
    requires k <= |tables|
    ensures MatchLoop(tables, name, 0, k, result, values) ==
      Success((if result.Some? then result else FirstVariantWith(tables, name, k), values))
    decreases |tables| - k
  {
    if k < |tables| {
      if name in Names(tables[k]) {
        MatchAtTopLevel(tables, name, k + 1, if result.None? then Some(k) else result, values);
      } else {
        MatchAtTopLevel(tables, name, k + 1, result, values);
      }
    }
  }

  /** Deeper than depth 0 a property name never changes the result. It is
      stored (once, as `null`) when exactly one variant declares it, and
      the read throws when the name is already stored or when two or more
      variants declare it. */
  lemma {:induction false} MatchNested(tables: seq<VariantTable>, name: string, scope: nat, k: nat,
                                       result: Option<nat>, values: Dict<Value>)
    requires k <= |tables| && scope > 0
    ensures var r := MatchLoop(tables, name, scope, k, result, values);
      var n := VariantsWith(tables, name, k);
      && (r.Success? <==> n == 0 || (n == 1 && !HasKey(values, name)))
      && (r.Success? ==> r.value.0 == result && r.value.1 == if n == 0 then values else values + [(name, NullValue)])
      && (r.Failure? ==> r.error == DuplicateKey(name))
    decreases |tables| - k
  {
    if k < |tables| {
      if name in Names(tables[k]) {
        if !HasKey(values, name) {
          var values' := values + [(name, NullValue)];
          assert Keys(values') == Keys(values) + [name];
          MatchNested(tables, name, scope, k + 1, result, values');
        }
      } else {
        MatchNested(tables, name, scope, k + 1, result, values);
      }
    }
  }

  /** The assignment loop fails exactly when some stored entry is not
      assignable: its key is neither a C# name nor a JSON name of the
      variant, or `SetValue` rejects its value. It then throws for the first
      such entry. Otherwise it makes one assignment per stored value, in
      order: to the property of that C# name, or else to the first property
      with that JSON name. */
  lemma ResolveLoopCharacterisation(t: VariantTable, values: Dict<Value>, j: nat, acc: seq<(string, Value)>)
    requires j <= |values|
    ensures var r := ResolveLoop(t, values, j, acc);
      && (r.Success? <==> forall m :: j <= m < |values| ==> Assignable(t, values[m]))
      && (r.Failure? ==> exists m: nat :: FirstUnassignable(t, values, j, m) && r.error == AssignmentError(t, values[m]))
      && (r.Success? ==>
           && |r.value| == |acc| + |values| - j && r.value[..|acc|] == acc
           && forall m :: j <= m < |values| ==>
                r.value[|acc| + m - j] == (ResolveKey(t, values[m].0).value, values[m].1))
  {
    ResolveLoopOutcome(t, values, j, acc);
    if ResolveLoop(t, values, j, acc).Success? {
      forall m | j <= m < |values| ensures ResolveKey(t, values[m].0).Some? {
        assert Assignable(t, values[m]);
      }
      ResolveLoopShape(t, values, j, acc);
    }
  }

  /** Entry `m` is the first entry at or after `j` that is not assignable. */
  predicate FirstUnassignable(t: VariantTable, values: Dict<Value>, j: nat, m: nat) {
    && j <= m < |values| && !Assignable(t, values[m])
    && forall q :: j <= q < m ==> Assignable(t, values[q])
  }

  /** The loop fails exactly when an entry is not assignable, and then with
      the error of the first such entry. */
  lemma {:induction false} ResolveLoopOutcome(t: VariantTable, values: Dict<Value>, j: nat, acc: seq<(string, Value)>)
    requires j <= |values|
    ensures var r := ResolveLoop(t, values, j, acc);
      && (r.Success? <==> forall m :: j <= m < |values| ==> Assignable(t, values[m]))
      && (r.Failure? ==> exists m: nat :: FirstUnassignable(t, values, j, m) && r.error == AssignmentError(t, values[m]))
    decreases |values| - j
  {
    if j < |values| {
      if !Assignable(t, values[j]) {
        assert FirstUnassignable(t, values, j, j);
      } else {
        var i := ResolveIndex(t, values[j].0).value;
        var acc' := acc + [(t.properties[i].0, values[j].1)];
        assert ResolveLoop(t, values, j, acc) == ResolveLoop(t, values, j + 1, acc');
        ResolveLoopOutcome(t, values, j + 1, acc');
        var r := ResolveLoop(t, values, j + 1, acc');
        if r.Failure? {
          var m: nat :| FirstUnassignable(t, values, j + 1, m) && r.error == AssignmentError(t, values[m]);
          FirstUnassignableBefore(t, values, j, m);
        }
      }
    }
  }

  /** An assignable entry in front keeps the first unassignable one first. */
  lemma FirstUnassignableBefore(t: VariantTable, values: Dict<Value>, j: nat, m: nat)
    requires j < |values| && Assignable(t, values[j]) && FirstUnassignable(t, values, j + 1, m)
    ensures FirstUnassignable(t, values, j, m)
  {
  }

  /** A successful loop appends, after `acc`, each stored value under the
      name its key resolves to, in order. */
  lemma {:induction false} ResolveLoopShape(t: VariantTable, values: Dict<Value>, j: nat, acc: seq<(string, Value)>)
    requires j <= |values|
    requires ResolveLoop(t, values, j, acc).Success?
    requires forall m :: j <= m < |values| ==> ResolveKey(t, values[m].0).Some?
    ensures var r := ResolveLoop(t, values, j, acc).value;
      && |r| == |acc| + |values| - j && r[..|acc|] == acc
      && forall m :: j <= m < |values| ==> r[|acc| + m - j] == (ResolveKey(t, values[m].0).value, values[m].1)
    decreases |values| - j
  {
    if j < |values| {
      var p := ResolveKey(t, values[j].0).value;
      var acc' := acc + [(p, values[j].1)];
      assert ResolveLoop(t, values, j, acc) == ResolveLoop(t, values, j + 1, acc');
      ResolveLoopShape(t, values, j + 1, acc');
      var r := ResolveLoop(t, values, j + 1, acc').value;
      assert r[..|acc|] == r[..|acc'|][..|acc|];
      forall m | j <= m < |values|
        ensures r[|acc| + m - j] == (ResolveKey(t, values[m].0).value, values[m].1)
      {
        if m == j {
          assert r[|acc|] == r[..|acc'|][|acc|] == acc'[|acc|];
        } else {
          assert |acc'| + m - (j + 1) == |acc| + m - j;
        }
      }
    }
  }

  /** An assignable entry targets a property of the variant with its key's
      resolved name, whose declared type accepts the value. */
  lemma AssignableTarget(t: VariantTable, e: (string, Value))
    requires Assignable(t, e)
    ensures ResolveKey(t, e.0).Some?
    ensures exists i :: 0 <= i < |t.properties| && t.properties[i].0 == ResolveKey(t, e.0).value && Fits(t.properties[i].2, e.1)
  {
    var i := ResolveIndex(t, e.0).value;
    assert t.properties[i].0 == ResolveKey(t, e.0).value;
  }

  /** Assignments only ever name properties of the chosen variant, and set
      each to a value its declared type accepts. */
  lemma ResolvedNamesAreProperties(t: VariantTable, values: Dict<Value>)
    ensures var r := ResolveLoop(t, values, 0, []);
      r.Success? ==> |r.value| == |values| && forall m :: 0 <= m < |r.value| ==>
        && r.value[m].0 in Names(t) && r.value[m].1 == values[m].1
        && (values[m].0 in Names(t) ==> r.value[m].0 == values[m].0)
        && exists i :: 0 <= i < |t.properties| && t.properties[i].0 == r.value[m].0 && Fits(t.properties[i].2, r.value[m].1)
  {
    ResolveLoopCharacterisation(t, values, 0, []);
    var r := ResolveLoop(t, values, 0, []);
    if r.Success? {
      forall m | 0 <= m < |r.value|
        ensures r.value[m].0 in Names(t) && r.value[m].1 == values[m].1
        ensures values[m].0 in Names(t) ==> r.value[m].0 == values[m].0
        ensures exists i :: 0 <= i < |t.properties| && t.properties[i].0 == r.value[m].0 && Fits(t.properties[i].2, r.value[m].1)
      {
        assert r.value[0 + m - 0] == (ResolveKey(t, values[m].0).value, values[m].1);
        AssignableTarget(t, values[m]);
      }
    }
  }

  /** A token stream with no closing token never yields a value: the read
      runs off the end (or throws earlier). */
  lemma {:induction false} NoEndNoResult(tables: seq<VariantTable>, tokens: seq<Token>, i: nat, st: ReaderState)
    requires i <= |tokens| && ValidResult(tables, st.result)
    requires forall m :: i <= m < |tokens| ==> !IsEnd(tokens[m])
    ensures Run(tables, tokens, i, st).Failure?
    decreases |tokens| - i
  {
    if i < |tokens| {
      var st' := Advance(tables, tokens[i], st);
      if st'.Success? {
        NoEndNoResult(tables, tokens, i + 1, st'.value);
      }
    }
  }

  predicate NamedByNoVariant(tables: seq<VariantTable>, t: Token) {
    t.PropertyName? ==> forall k :: 0 <= k < |tables| ==> t.name !in Names(tables[k])
  }

  /** When no property name of the stream is a C# name of any variant, no
      variant is ever chosen and the read fails: at the closing token with
      "failed to determine the type of the OneOf", or by running off the
      end. */
  lemma {:induction false} NoMatchUndetermined(tables: seq<VariantTable>, tokens: seq<Token>, i: nat, st: ReaderState)
    requires i <= |tokens| && st.result.None?
    requires forall m :: i <= m < |tokens| ==> NamedByNoVariant(tables, tokens[m])
    ensures var r := Run(tables, tokens, i, st);
      r.Failure? && (r.error == OneOfUndetermined || r.error == IncompleteJson)
    decreases |tokens| - i
  {
    if i < |tokens| {
      if IsEnd(tokens[i]) {
        if st.scope > 0 {
          NoMatchUndetermined(tables, tokens, i + 1, st.(scope := st.scope - 1));
        }
      } else {
        if tokens[i].PropertyName? {
          NoVariantNoMatch(tables, tokens[i].name, st.scope, 0, st.values);
        }
        NoMatchUndetermined(tables, tokens, i + 1, Advance(tables, tokens[i], st).value);
      }
    }
  }

  lemma {:induction false} NoVariantNoMatch(tables: seq<VariantTable>, name: string, scope: nat, k: nat, values: Dict<Value>)
    requires k <= |tables|
    requires forall j :: 0 <= j < |tables| ==> name !in Names(tables[j])
    ensures MatchLoop(tables, name, scope, k, None, values) == Success((None, values))
    decreases |tables| - k
  {
    if k < |tables| {
      NoVariantNoMatch(tables, name, scope, k + 1, values);
    }
  }

  /** A successful read ends at a closing token at depth 0 with a chosen
      variant: the result is an instance of a declared variant, and every
      assignment names a property of it whose declared type accepts the
      value. */
  lemma {:induction false} ReadResultIsVariant(tables: seq<VariantTable>, tokens: seq<Token>, i: nat, st: ReaderState)
    requires i <= |tokens| && ValidResult(tables, st.result)
    ensures var r := Run(tables, tokens, i, st);
      r.Success? ==>
        && r.value.0.variant < |tables|
        && |r.value.0.assignments| == |r.value.1|
        && forall m :: 0 <= m < |r.value.0.assignments| ==>
             && r.value.0.assignments[m].0 in Names(tables[r.value.0.variant])
             && exists p :: 0 <= p < |tables[r.value.0.variant].properties| &&
                  tables[r.value.0.variant].properties[p].0 == r.value.0.assignments[m].0 &&
                  Fits(tables[r.value.0.variant].properties[p].2, r.value.0.assignments[m].1)
    decreases |tokens| - i
  {
    if i < |tokens| {
      if IsEnd(tokens[i]) {
        if st.scope > 0 {
          ReadResultIsVariant(tables, tokens, i + 1, st.(scope := st.scope - 1));
        } else if st.result.Some? {
          ResolvedNamesAreProperties(tables[st.result.value], st.values);
        }
      } else {
        var st' := Advance(tables, tokens[i], st);
        if st'.Success? {
          ReadResultIsVariant(tables, tokens, i + 1, st'.value);
        }
      }
    }
  }

  // ------------------------------------------ values that outlive a read

  /** The property names the tokens from `i` on mention. */
  function NamesFrom(tokens: seq<Token>, i: nat): set<string>
    requires i <= |tokens|
    decreases |tokens| - i
  {
    if i == |tokens| then {}
    else (if tokens[i].PropertyName? then {tokens[i].name} else {}) + NamesFrom(tokens, i + 1)
  }

  predicate KeysWithin(values: Dict<Value>, allowed: set<string>) {
    forall m :: 0 <= m < |values| ==> values[m].0 in allowed
  }

  lemma {:induction false} MatchLoopKeys(tables: seq<VariantTable>, name: string, scope: nat, k: nat,
                                         result: Option<nat>, values: Dict<Value>, allowed: set<string>)
    requires k <= |tables| && KeysWithin(values, allowed) && name in allowed
    ensures var r := MatchLoop(tables, name, scope, k, result, values);
      r.Success? ==> KeysWithin(r.value.1, allowed)
    decreases |tables| - k
  {
    if k < |tables| {
      if name in Names(tables[k]) {
        if scope == 0 {
          MatchLoopKeys(tables, name, scope, k + 1, if result.None? then Some(k) else result, values, allowed);
        } else if !HasKey(values, name) {
          MatchLoopKeys(tables, name, scope, k + 1, result, values + [(name, NullValue)], allowed);
        }
      } else {
        MatchLoopKeys(tables, name, scope, k + 1, result, values, allowed);
      }
    }
  }

  lemma SetKeys(values: Dict<Value>, key: string, v: Value, allowed: set<string>)
    requires KeysWithin(values, allowed) && key in allowed
    ensures KeysWithin(Set(values, key, v), allowed)
  {
    var r := Set(values, key, v);
    if HasKey(values, key) {
      forall m | 0 <= m < |r| ensures r[m].0 in allowed {
        assert r[m].0 == Keys(r)[m] == Keys(values)[m] == values[m].0;
      }
    }
  }

  /** Every value a read leaves stored is keyed by a name that was stored
      before it began, by the property current when it began, or by a
      property name among its own tokens. */
  lemma {:induction false} RunKeys(tables: seq<VariantTable>, tokens: seq<Token>, i: nat, st: ReaderState, allowed: set<string>)
    requires i <= |tokens| && ValidResult(tables, st.result)
    requires KeysWithin(st.values, allowed) && st.current in allowed && NamesFrom(tokens, i) <= allowed
    ensures var r := Run(tables, tokens, i, st);
      r.Success? ==> KeysWithin(r.value.1, allowed)
    decreases |tokens| - i
  {
    if i < |tokens| {
      assert NamesFrom(tokens, i + 1) <= NamesFrom(tokens, i);
      if IsEnd(tokens[i]) {
        if st.scope > 0 {
          RunKeys(tables, tokens, i + 1, st.(scope := st.scope - 1), allowed);
        }
      } else {
        var t := tokens[i];
        var st' := Advance(tables, t, st);
        if st'.Success? {
          match t {
            case PropertyName(name) =>
              assert name in NamesFrom(tokens, i);
              MatchLoopKeys(tables, name, st.scope, 0, st.result, st.values, allowed);
            case StringToken(text) => SetKeys(st.values, st.current, StringValue(text), allowed);
            case NumberToken(literal) => SetKeys(st.values, st.current, NumberValue(literal), allowed);
            case TrueToken => SetKeys(st.values, st.current, BoolValue(true), allowed);
            case FalseToken => SetKeys(st.values, st.current, BoolValue(false), allowed);
            case NullToken => SetKeys(st.values, st.current, NullValue, allowed);
            case _ =>
          }
          RunKeys(tables, tokens, i + 1, st'.value, allowed);
        }
      }
    }
  }

  /** A read from no stored values depends on its own tokens only: every
      value it assigns was stored under a property name of its own stream
      (or under the empty name current before the first one), and the
      assignments are exactly those values, in order, onto properties of
      the chosen variant. */
  lemma DecodeUsesOnlyItsOwnTokens(tables: seq<VariantTable>, tokens: seq<Token>)
    ensures var r := ReadOn(tables, tokens, []);
      r.Success? ==>
        && Decode(tables, tokens) == Success(r.value.0)
        && KeysWithin(r.value.1, NamesFrom(tokens, 0) + {""})
        && |r.value.0.assignments| == |r.value.1|
        && forall m :: 0 <= m < |r.value.1| ==>
             r.value.0.assignments[m].1 == r.value.1[m].1
  {
    RunKeys(tables, tokens, 0, Initial([]), NamesFrom(tokens, 0) + {""});
    CarriedValues(tables, tokens, 0, Initial([]));
  }

  /** On success the assignments pair up with the values left stored. */
  lemma {:induction false} CarriedValues(tables: seq<VariantTable>, tokens: seq<Token>, i: nat, st: ReaderState)
    requires i <= |tokens| && ValidResult(tables, st.result)
    ensures var r := Run(tables, tokens, i, st);
      r.Success? ==>
        && |r.value.0.assignments| == |r.value.1|
        && forall m :: 0 <= m < |r.value.1| ==> r.value.0.assignments[m].1 == r.value.1[m].1
    decreases |tokens| - i
  {
    if i < |tokens| {
      if IsEnd(tokens[i]) {
        if st.scope > 0 {
          CarriedValues(tables, tokens, i + 1, st.(scope := st.scope - 1));
        } else if st.result.Some? {
          ResolvedNamesAreProperties(tables[st.result.value], st.values);
        }
      } else {
        var st' := Advance(tables, tokens[i], st);
        if st'.Success? {
          CarriedValues(tables, tokens, i + 1, st'.value);
        }
      }
    }
  }

  const ChoiceTables := [VariantTable("ChoiceA", [("A", "a", "string")]), VariantTable("ChoiceB", [("B", "b", "bool")])]

  lemma ChoiceNames()
    ensures Names(ChoiceTables[0]) == ["A"] && Names(ChoiceTables[1]) == ["B"]
    ensures JsonNames(ChoiceTables[1]) == ["b"]
  {
  }

  /** A read of an object with one property: the name, a scalar and the
      closing token at depth 0 reach `Finish` on the state after both. */
  lemma RunOneProperty(tables: seq<VariantTable>, tokens: seq<Token>, st: ReaderState, s1: ReaderState, s2: ReaderState)
    requires |tokens| == 3 && !IsEnd(tokens[0]) && !IsEnd(tokens[1]) && IsEnd(tokens[2])
    requires ValidResult(tables, st.result) && ValidResult(tables, s1.result) && ValidResult(tables, s2.result)
    requires Advance(tables, tokens[0], st) == Success(s1) && Advance(tables, tokens[1], s1) == Success(s2)
    requires s2.scope == 0
    ensures Run(tables, tokens, 0, st) == Finish(tables, s2)
  {
    assert Run(tables, tokens, 0, st) == Run(tables, tokens, 1, s1);
    assert Run(tables, tokens, 1, s1) == Run(tables, tokens, 2, s2);
  }

  /** `{"A": "x"}` decodes as a `ChoiceA` and leaves `A` stored. */
  lemma FirstReadExample()
    ensures ReadOn(ChoiceTables, [PropertyName("A"), StringToken("x"), EndObject], []) ==
      Success((Decoded(0, [("A", StringValue("x"))]), [("A", StringValue("x"))]))
  {
    ChoiceNames();
    var t1 := [PropertyName("A"), StringToken("x"), EndObject];
    var s1 := ReaderState(0, "A", Some(0), []);
    assert MatchLoop(ChoiceTables, "A", 0, 0, None, []) == MatchLoop(ChoiceTables, "A", 0, 1, Some(0), []);
    assert Advance(ChoiceTables, t1[0], Initial([])) == Success(s1);
    var s2 := s1.(values := [("A", StringValue("x"))]);
    assert Set(s1.values, "A", StringValue("x")) == s2.values;
    assert Advance(ChoiceTables, t1[1], s1) == Success(s2);
    RunOneProperty(ChoiceTables, t1, Initial([]), s1, s2);
    assert ResolveKey(ChoiceTables[0], "A") == Some("A");
    assert ResolveLoop(ChoiceTables[0], s2.values, 0, []) == Success([("A", StringValue("x"))]);
  }

  /** `{"B": true}` read on the values the first read left throws. */
  lemma SecondReadExample()
    ensures ReadOn(ChoiceTables, [PropertyName("B"), TrueToken, EndObject], [("A", StringValue("x"))]) ==
      Failure(PropertyNotFound("A"))
  {
    ChoiceNames();
    var t2 := [PropertyName("B"), TrueToken, EndObject];
    var stale: Dict<Value> := [("A", StringValue("x"))];
    assert MatchLoop(ChoiceTables, "B", 0, 1, None, stale) == Success((Some(1), stale));
    var s3 := ReaderState(0, "B", Some(1), stale);
    assert Advance(ChoiceTables, t2[0], Initial(stale)) == Success(s3);
    assert Keys(stale) == ["A"];
    var s4 := s3.(values := stale + [("B", BoolValue(true))]);
    assert Set(stale, "B", BoolValue(true)) == s4.values;
    assert Advance(ChoiceTables, t2[1], s3) == Success(s4);
    RunOneProperty(ChoiceTables, t2, Initial(stale), s3, s4);
    assert ResolveKey(ChoiceTables[1], "A") == None;
    assert ResolveLoop(ChoiceTables[1], s4.values, 0, []) == Failure(PropertyNotFound("A"));
  }

  /** The same object read from no stored values decodes as a `ChoiceB`. */
  lemma FreshReadExample()
    ensures Decode(ChoiceTables, [PropertyName("B"), TrueToken, EndObject]) == Success(Decoded(1, [("B", BoolValue(true))]))
  {
    ChoiceNames();
    var t2 := [PropertyName("B"), TrueToken, EndObject];
    assert MatchLoop(ChoiceTables, "B", 0, 1, None, []) == Success((Some(1), []));
    var f3 := ReaderState(0, "B", Some(1), []);
    assert Advance(ChoiceTables, t2[0], Initial([])) == Success(f3);
    var f4 := f3.(values := [("B", BoolValue(true))]);
    assert Set(f3.values, "B", BoolValue(true)) == f4.values;
    assert Advance(ChoiceTables, t2[1], f3) == Success(f4);
    RunOneProperty(ChoiceTables, t2, Initial([]), f3, f4);
    assert ResolveKey(ChoiceTables[1], "B") == Some("B");
    assert ResolveLoop(ChoiceTables[1], f4.values, 0, []) == Success([("B", BoolValue(true))]);
  }

  /** Reading `{"A": "x"}` leaves `A` stored in the converter; a second read
      of `{"B": true}` by the same instance then tries to set `A` on a
      `ChoiceB` and throws, although the same object read by a fresh
      converter decodes as a `ChoiceB`. */
  lemma StaleValuesExample()
    ensures var first := ReadOn(ChoiceTables, [PropertyName("A"), StringToken("x"), EndObject], []);
      && first == Success((Decoded(0, [("A", StringValue("x"))]), [("A", StringValue("x"))]))
      && ReadOn(ChoiceTables, [PropertyName("B"), TrueToken, EndObject], first.value.1) == Failure(PropertyNotFound("A"))
      && Decode(ChoiceTables, [PropertyName("B"), TrueToken, EndObject]) == Success(Decoded(1, [("B", BoolValue(true))]))
  {
    FirstReadExample();
    SecondReadExample();
    FreshReadExample();
  }

  /** A number is stored as a `double`, which only a `double` (or `object`)
      property accepts: of the property types generated for scalar
      schemas, an `integer` property never accepts a number read, and a
      `number` property accepts one exactly when its format is `double`. */
  lemma NumbersFitOnlyDouble(format: Option<string>, literal: string)
    ensures var ty := BaseGenerator.ScalarType("integer", format);
      ty.Some? ==> !Fits(ty.value, NumberValue(literal))
    ensures var ty := BaseGenerator.ScalarType("number", format);
      ty.Some? ==> (Fits(ty.value, NumberValue(literal)) <==> format == Some("double"))
  {
  }

  const CountTables := [VariantTable("Count", [("N", "n", "int")])]

  /** `{"N": 1}` selects the variant whose `int` property is `N`, and then
      throws when the stored `double` is set on it. */
  lemma IntPropertyExample()
    ensures Decode(CountTables, [PropertyName("N"), NumberToken("1"), EndObject]) == Failure(ValueNotAssignable("N"))
  {
    var tokens := [PropertyName("N"), NumberToken("1"), EndObject];
    assert Names(CountTables[0]) == ["N"];
    assert MatchLoop(CountTables, "N", 0, 0, None, []) == MatchLoop(CountTables, "N", 0, 1, Some(0), []);
    var s1 := ReaderState(0, "N", Some(0), []);
    assert Advance(CountTables, tokens[0], Initial([])) == Success(s1);
    var s2 := s1.(values := [("N", NumberValue("1"))]);
    assert Set(s1.values, "N", NumberValue("1")) == s2.values;
    assert Advance(CountTables, tokens[1], s1) == Success(s2);
    RunOneProperty(CountTables, tokens, Initial([]), s1, s2);
    assert ResolveIndex(CountTables[0], "N") == Some(0);
  }

  // ------------------------------------------ identifiers of the converter

  /** The identifiers the emitted converter's text uses: its class name,
      the type it converts, the values field it declares and adds to, the
      field its scalar cases write, and the parameter type of `Write`. */
  datatype ConverterIdentifiers = ConverterIdentifiers(
    converterName: string,
    convertedType: string,
    valuesField: string,
    scalarTarget: string,
    writeParameterType: string)

  /** As emitted for base record `base`: the scalar cases and `Write` name
      `BeskeddataOneOf` whatever the base is. */
  function IdentifiersAsWritten(base: string): ConverterIdentifiers {
    ConverterIdentifiers(base + "ConverterJson", base, "_valuesFor" + base,
                         "_valuesForBeskeddataOneOf", "BeskeddataOneOf")
  }

  /** The identifiers with every occurrence derived from the base. */
  function Identifiers(base: string): ConverterIdentifiers {
    ConverterIdentifiers(base + "ConverterJson", base, "_valuesFor" + base, "_valuesFor" + base, base)
  }

  /** The text only compiles as a `JsonConverter<base>` when the scalar
      cases write the declared field and `Write` overrides for the
      converted type. */
  predicate Coherent(ids: ConverterIdentifiers) {
    ids.scalarTarget == ids.valuesField && ids.writeParameterType == ids.convertedType
  }

  /** The emitted converter is coherent for exactly one base name. */
  lemma AsWrittenCoherentOnlyForOneBase(base: string)
    ensures Coherent(IdentifiersAsWritten(base)) <==> base == "BeskeddataOneOf"
  {
    var fixed := "BeskeddataOneOf";
    assert "_valuesForBeskeddataOneOf" == "_valuesFor" + fixed;
    PrefixCancels("_valuesFor", base, fixed);
  }

  /** Equal strings with the same prefix have equal rests (a helper of
      `AsWrittenCoherentOnlyForOneBase`). */
  lemma PrefixCancels(p: string, a: string, b: string)
    ensures p + a == p + b <==> a == b
  {
    if p + a == p + b {
      assert a == (p + a)[|p|..] && b == (p + b)[|p|..];
    }
  }

  lemma AsWrittenIncoherentExample()
    ensures !Coherent(IdentifiersAsWritten("ChoiceOneOf"))
  {
    AsWrittenCoherentOnlyForOneBase("ChoiceOneOf");
  }

  /** Deriving every identifier from the base is coherent for every base,
      and agrees with the emitted text on the identifiers it derives. */
  lemma IdentifiersCoherent(base: string)
    ensures Coherent(Identifiers(base))
    ensures Identifiers(base).converterName == IdentifiersAsWritten(base).converterName
    ensures Identifiers(base).valuesField == IdentifiersAsWritten(base).valuesField
    ensures Identifiers("BeskeddataOneOf") == IdentifiersAsWritten("BeskeddataOneOf")
  {
  }

  // ------------------------------------------------- the emitted converter

  /** An instance of the emitted `{base}ConverterJson`. */
  class JsonOneOfConverter {
    /** `_propertiesFor{className}` of each variant, which the static
        constructor fills once by reflection. */
    const tables: seq<VariantTable>
    /** The instance's `_valuesFor{base}` dictionary; no `Read` clears it. */
    var values: Dict<Value>

    constructor(conv: OneOfConverter)
      ensures tables == ConverterTables(conv) && values == []
    {
      tables := ConverterTables(conv);
      values := [];
    }

    /** The `if (_propertiesFor...Contains(propertyName))` blocks. */
    method MatchProperty(name: string, scope: nat, result: Option<nat>) returns (r: Result<Option<nat>, Exception>)
      requires ValidResult(tables, result)
      modifies this
      ensures var spec := MatchLoop(tables, name, scope, 0, result, old(values));
        && (r.Success? <==> spec.Success?)
        && (r.Success? ==> r.value == spec.value.0 && values == spec.value.1)
        && (r.Failure? ==> r.error == spec.error)
    {
      var chosen: Option<nat> := result;
      for k := 0 to |tables|
        invariant ValidResult(tables, chosen)
        invariant MatchLoop(tables, name, scope, 0, result, old(values)) == MatchLoop(tables, name, scope, k, chosen, values)
      {
        if name in Names(tables[k]) {
          if scope == 0 {
            if chosen.None? {
              chosen := Some(k);
            }
          } else {
            if HasKey(values, name) {
              return Failure(DuplicateKey(name));
            }
            values := values + [(name, NullValue)];
          }
        }
      }
      return Success(chosen);
    }

    /** The loop that sets each stored value on the chosen variant. */
    method AssignValues(variant: nat) returns (r: Result<seq<(string, Value)>, Exception>)
      requires variant < |tables|
      ensures r == ResolveLoop(tables[variant], values, 0, [])
    {
      var assignments: seq<(string, Value)> := [];
      for j := 0 to |values|
        invariant ResolveLoop(tables[variant], values, 0, []) == ResolveLoop(tables[variant], values, j, assignments)
      {
        var index := ResolveIndex(tables[variant], values[j].0);
        if index.None? {
          return Failure(PropertyNotFound(values[j].0));
        }
        var property := tables[variant].properties[index.value];
        if !Fits(property.2, values[j].1) {
          return Failure(ValueNotAssignable(property.0));
        }
        assignments := assignments + [(property.0, values[j].1)];
      }
      return Success(assignments);
    }

    /** One token other than a closing one. */
    method Step(t: Token, scope: nat, current: string, result: Option<nat>)
      returns (r: Result<(nat, string, Option<nat>), Exception>)
      requires !IsEnd(t) && ValidResult(tables, result)
      modifies this
      ensures var spec := Advance(tables, t, ReaderState(scope, current, result, old(values)));
        && (r.Success? <==> spec.Success?)
        && (r.Success? ==> spec.value == ReaderState(r.value.0, r.value.1, r.value.2, values))
        && (r.Failure? ==> r.error == spec.error)
    {
      match t {
        case StartObject => return Success((scope + 1, current, result));
        case StartArray => return Success((scope + 1, current, result));
        case PropertyName(name) =>
          var m := MatchProperty(name, scope, result);
          if m.Failure? {
            return Failure(m.error);
          }
          return Success((scope, name, m.value));
        case NoneToken => return Success((scope, current, result));
        case Comment => return Success((scope, current, result));
        case StringToken(text) =>
          values := Set(values, current, StringValue(text));
        case NumberToken(literal) =>
          values := Set(values, current, NumberValue(literal));
        case TrueToken =>
          values := Set(values, current, BoolValue(true));
        case FalseToken =>
          values := Set(values, current, BoolValue(false));
        case NullToken =>
          values := Set(values, current, NullValue);
      }
      return Success((scope, current, result));
    }

    /** `Read`: the `while (reader.Read())` loop over the tokens after the
        opening one. */
    method Read(tokens: seq<Token>) returns (r: Result<Decoded, Exception>)
      modifies this
      ensures var spec := ReadOn(tables, tokens, old(values));
        && (r.Success? <==> spec.Success?)
        && (r.Success? ==> r.value == spec.value.0 && values == spec.value.1)
        && (r.Failure? ==> r.error == spec.error)
    {
      var scope: nat := 0;
      var current := "";
      var result: Option<nat> := None;
      var i := 0;
      while i < |tokens|
        invariant i <= |tokens| && ValidResult(tables, result)
        invariant ReadOn(tables, tokens, old(values)) == Run(tables, tokens, i, ReaderState(scope, current, result, values))
        decreases |tokens| - i
      {
        if IsEnd(tokens[i]) {
          if scope == 0 {
            if result.None? {
              return Failure(OneOfUndetermined);
            }
            var assignments := AssignValues(result.value);
            if assignments.Failure? {
              return Failure(assignments.error);
            }
            return Success(Decoded(result.value, assignments.value));
          }
          scope := scope - 1;
        } else {
          var next := Step(tokens[i], scope, current, result);
          if next.Failure? {
            return Failure(next.error);
          }
          scope, current, result := next.value.0, next.value.1, next.value.2;
        }
        i := i + 1;
      }
      return Failure(IncompleteJson);
    }

    /** `Read` by a converter holding no values from earlier reads. */
    method ReadFresh(tokens: seq<Token>) returns (r: Result<Decoded, Exception>)
      modifies this
      ensures r == Decode(tables, tokens)
    {
      values := [];
      r := Read(tokens);
    }
  }
}
