/** The rules of Generator/DataClassGenerator.cs as functions of the input
    and of the generator's state (the pending-schema queue and the set of
    generated class names). `DataClassGenerator` is proved to follow them.
    A thrown exception is a `Failure` and aborts the whole generation. */
module DataClassRules {
  import opened Wrappers
  import opened Dictionaries
  import opened OpenApi
  import opened Extensions
  import opened BaseGenerator
  import opened Models

  /** `_missingSchemasToGenerate`: (name, schema) pairs in FIFO order. */
  type Queue = seq<(string, Schema)>

  /** The generator's fields between two public calls. */
  datatype GenState = GenState(queue: Queue, generated: set<string>, classes: Dict<Class>)

  const ProblemDetailsNames: set<string> := {"ProblemDetails", "HttpValidationProblemDetails", "ExceptionProblemDetails"}

  /** `Title(ClassName(title)) + "ApiClient" + "V" + Version[0] + ".Models"`;
      an empty version has no first character. */
  function ModelsNamespace(info: Info): Result<string, Exception> {
    var title :- Title(ClassName(Some(info.title)));
    if info.version == "" then Failure(IndexOutOfRange)
    else Success(title + "ApiClient" + "V" + [info.version[0]] + ".Models")
  }

  // ----------------------------------------------------------- properties

  predicate IsRequired(owner: Schema, key: string) {
    owner.required.Some? && key in owner.required.value
  }

  /** A property schema that is an inline object: it is queued under its key. */
  predicate EnqueuesSelf(v: Schema) {
    v.schemaType == Some("object") && v.reference.None?
  }

  /** A property whose items are an inline object without oneOf: the items
      are queued under the property name followed by "Item". */
  predicate EnqueuesItems(v: Schema) {
    v.items.Some? && v.items.value.schemaType == Some("object") &&
    v.items.value.reference.None? && v.items.value.oneOf.NoOneOf?
  }

  predicate HasOneOfItems(v: Schema) {
    v.items.Some? && v.items.value.oneOf.OneOf?
  }

  /** The type selection of `GenerateProperty`; `title` is `Title(key)`. */
  function PropertyTypeName(title: string, v: Schema): Result<string, Exception> {
    if v.schemaType.Some? && v.schemaType.value != "object" then
      if HasOneOfItems(v) then Success(title + "OneOf[]") else TypeName(v)
    else if v.reference.Some? then Success(ClassName(v.reference))
    else if v.schemaType.None? then Success("object")
    else Success(title)
  }

  /** The property name: `Title(key)`, with "Property" appended when it
      equals the enclosing class's name. */
  function PropertyName(className: string, title: string): string {
    if className == title then title + "Property" else title
  }

  /** The property `GenerateProperty(sb, (key, v), owner, className)` returns. */
  function PropertyFor(className: string, key: string, v: Schema, owner: Schema): Result<Property, Exception> {
    var title :- Title(key);
    var typeName :- PropertyTypeName(title, v);
    Success(Property(PropertyName(className, title), typeName, IsRequired(owner, key), v.nullable,
                     v.description, key, v.deprecated))
  }

  /** What `GenerateProperty` enqueues once the property is named `name`:
      an inline object under its key, then inline object items under the
      property name followed by "Item". */
  function PropertyPushes(key: string, name: string, v: Schema): Queue {
    (if EnqueuesSelf(v) then [(key, v)] else []) +
    (if EnqueuesItems(v) then [(name + "Item", v.items.value)] else [])
  }

  // ---------------------------------------------------- records and oneOf

  /** `GenerateRecord(className, ns, _, s, baseClass)` given the generated names. */
  function RecordSpec(className: string, ns: string, s: Schema, baseClass: Option<string>, q: Queue, generated: set<string>)
    : Result<(Class, Queue), Exception>
    decreases s, 4
  {
    var r :- PropsLoop(className, ns, s, 0, [], [], q, generated);
    Success((Class(className, ns, RecordShape(baseClass), r.0, r.1), r.2))
  }

  /** One iteration of the property loop of `GenerateRecord`: the property,
      the converter of its oneOf items if one is generated, and the queue. */
  function EntryStep(className: string, ns: string, owner: Schema, key: string, v: Schema, q: Queue, generated: set<string>)
    : Result<(Property, Option<OneOfConverter>, Queue), Exception>
    decreases v, 2
  {
    var p :- PropertyFor(className, key, v, owner);
    var q1 := q + PropertyPushes(key, p.name, v);
    if HasOneOfItems(v) then
      var cq :- OneOfSpec(key, ns, v.items.value, q1, generated);
      Success((p, cq.0, cq.1))
    else Success((p, None, q1))
  }

  /** The loop over the properties of `s`, from entry `i` on, with the
      properties and converters collected so far. */
  function PropsLoop(className: string, ns: string, s: Schema, i: nat,
                     props: seq<Property>, convs: seq<OneOfConverter>, q: Queue, generated: set<string>)
    : Result<(seq<Property>, seq<OneOfConverter>, Queue), Exception>
    requires i <= |PropertiesOf(s)|
    decreases s, 3, |PropertiesOf(s)| - i
  {
    if i == |PropertiesOf(s)| then Success((props, convs, q))
    else
      var e :- EntryStep(className, ns, s, s.properties.entries[i].0, s.properties.entries[i].1, q, generated);
      var convs' := if e.1.Some? then convs + [e.1.value] else convs;
      PropsLoop(className, ns, s, i + 1, props + [e.0], convs', e.2, generated)
  }

  /** The base record of a oneOf: `GenerateRecord(name, ns, _, new OpenApiSchema())`. */
  function BaseRecord(name: string, ns: string): Class {
    Class(name, ns, RecordShape(None), [], [])
  }

  /** `GenerateJsonConvertersForOneOf`: the converter's class name. */
  function ConverterName(baseClassName: string): string {
    baseClassName + "ConverterJson"
  }

  /** The class name of one oneOf variant: owner and variant title, each
      through `GetClassNameFromKey` and not title-cased. */
  function VariantClassName(owner: string, variant: Schema): string {
    ClassName(Some(owner)) + ClassName(variant.title)
  }

  /** `GenerateOneOf(owner, ns, items)` given the generated names. */
  function OneOfSpec(owner: string, ns: string, items: Schema, q: Queue, generated: set<string>)
    : Result<(Option<OneOfConverter>, Queue), Exception>
    decreases items, 1
  {
    if items.oneOf.NoOneOf? then Success((None, q))
    else
      var name :- Title(ClassName(Some(owner)));
      if name + "OneOf" in generated then Success((None, q))
      else
        var r :- VariantsLoop(owner, name, ns, items, 0, [], [], q, generated);
        var converter := OneOfConverter(ConverterName(name + "OneOf"), ns, name + "OneOf", r.1,
                                        [BaseRecord(name + "OneOf", ns)] + r.0);
        Success((Some(converter), r.2))
  }

  /** The loop over the oneOf variants from `j` on. */
  function VariantsLoop(owner: string, name: string, ns: string, items: Schema, j: nat,
                        classes: seq<Class>, classNames: seq<string>, q: Queue, generated: set<string>)
    : Result<(seq<Class>, seq<string>, Queue), Exception>
    requires items.oneOf.OneOf? && j <= |items.oneOf.variants|
    decreases items, 0, |items.oneOf.variants| - j
  {
    if j == |items.oneOf.variants| then Success((classes, classNames, q))
    else
      var v := items.oneOf.variants[j];
      var className := VariantClassName(owner, v);
      var cq :- RecordSpec(className, ns, v, Some(name + "OneOf"), q, generated);
      VariantsLoop(owner, name, ns, items, j + 1, classes + [cq.0], classNames + [className], cq.1, generated)
  }

  /** `GenerateEnum`: one member per enum value, no properties, no converters. */
  function GenerateEnum(className: string, ns: string, s: Schema): (c: Class)
    requires s.enumValues.Some?
    ensures c.name == className && c.namespace == ns && c.properties == [] && c.oneOfConverters == []
    ensures c.shape == EnumShape(s.description, s.enumValues.value)
  {
    Class(className, ns, EnumShape(s.description, s.enumValues.value), [], [])
  }

  // ------------------------------------------------------- the whole run

  /** The two filters of the loop over the component schemas. */
  predicate Unsupported(s: Schema) {
    || (s.schemaType.Some? && s.schemaType.value != "object" &&
        s.schemaType.value != "string" && s.enumValues.None? && s.items.None?)
    || (s.schemaType != Some("object") && s.schemaType != Some("array") && s.schemaType != Some("string"))
  }

  /** An array schema whose items are an inline object with properties: the
      record is generated from the items. */
  predicate IsInlineObjectArray(s: Schema) {
    s.items.Some? && s.schemaType == Some("array") && s.items.value.schemaType == Some("object") &&
    s.items.value.properties.Properties? && s.items.value.reference.None?
  }

  /** `_result.Classes.Add(className, c)`. */
  function AddClass(classes: Dict<Class>, className: string, c: Class): Result<Dict<Class>, Exception> {
    match Add(classes, className, c)
    case Success(d) => Success(d)
    case Failure(k) => Failure(DuplicateKey(k))
  }

  /** One iteration of the loop over `Components.Schemas`. */
  function TopLevelStep(ns: string, key: string, s: Schema, st: GenState): Result<GenState, Exception> {
    if Unsupported(s) then Success(st)
    else
      var className :- Title(ClassName(Some(key)));
      if className in ProblemDetailsNames || className in st.generated then Success(st)
      else
        var generated := st.generated + {className};
        if s.enumValues.Some? then
          var classes :- AddClass(st.classes, className, GenerateEnum(className, ns, s));
          Success(GenState(st.queue, generated, classes))
        else
          var target := if IsInlineObjectArray(s) then s.items.value else s;
          var cq :- RecordSpec(className, ns, target, None, st.queue, generated);
          var classes :- AddClass(st.classes, className, cq.0);
          Success(GenState(cq.1, generated, classes))
  }

  /** The loop over `Components.Schemas` from entry `i` on. */
  function TopLevelLoop(ns: string, schemas: seq<(string, Schema)>, i: nat, st: GenState): Result<GenState, Exception>
    requires i <= |schemas|
    decreases |schemas| - i
  {
    if i == |schemas| then Success(st)
    else
      var st' :- TopLevelStep(ns, schemas[i].0, schemas[i].1, st);
      TopLevelLoop(ns, schemas, i + 1, st')
  }

  // ------------------------------------------------ termination of the drain

  /** How much queue weight generating a record of `s` can add: every
      schema `GenerateProperty` may queue, again with its own weight, plus
      what the records of oneOf variants may queue. */
  function Weight(s: Schema): nat
    decreases s, 6
  {
    1 + Potential(s)
  }

  function Potential(s: Schema): nat
    decreases s, 5
  {
    PropsPotential(s, 0)
  }

  function PropsPotential(s: Schema, i: nat): nat
    decreases s, 4, |PropertiesOf(s)| - i
  {
    if i >= |PropertiesOf(s)| then 0
    else EntryPotential(s.properties.entries[i].1) + PropsPotential(s, i + 1)
  }

  /** What one property iteration queues: the property's own pushes and
      those of its oneOf variants' records. */
  function EntryPotential(v: Schema): nat
    decreases v, 7
  {
    (if EnqueuesSelf(v) then Weight(v) else 0) +
    (if EnqueuesItems(v) then Weight(v.items.value) else 0) +
    (if HasOneOfItems(v) then VariantsPotential(v.items.value, 0) else 0)
  }

  function VariantsPotential(items: Schema, j: nat): nat
    requires items.oneOf.OneOf?
    decreases items, 0, |items.oneOf.variants| - j
  {
    if j >= |items.oneOf.variants| then 0
    else Potential(items.oneOf.variants[j]) + VariantsPotential(items, j + 1)
  }

  function QueueWeight(q: Queue): nat {
    if q == [] then 0 else Weight(q[0].1) + QueueWeight(q[1..])
  }

  lemma {:induction false} QueueWeightAppend(a: Queue, b: Queue)
    ensures QueueWeight(a + b) == QueueWeight(a) + QueueWeight(b)
  {
    if a == [] {
      assert a + b == b;
    } else {
      assert (a + b)[0] == a[0];
      assert (a + b)[1..] == a[1..] + b;
      QueueWeightAppend(a[1..], b);
    }
  }

  /** `q'` is `q` with `pushed` appended, and `pushed` weighs at most `bound`. */
  predicate GrowsBy(q: Queue, q': Queue, bound: nat) {
    |q| <= |q'| && q'[..|q|] == q && QueueWeight(q'[|q|..]) <= bound
  }

  lemma GrowsByChain(q0: Queue, q1: Queue, q2: Queue, b1: nat, b2: nat)
    requires GrowsBy(q0, q1, b1) && GrowsBy(q1, q2, b2)
    ensures GrowsBy(q0, q2, b1 + b2)
  {
    assert q2[..|q0|] == q1[..|q0|] by {
      assert q2[..|q1|][..|q0|] == q2[..|q0|];
    }
    assert q2[|q0|..] == q1[|q0|..] + q2[|q1|..] by {
      assert q1 == q2[..|q1|];
    }
    QueueWeightAppend(q1[|q0|..], q2[|q1|..]);
  }

  lemma GrowsByNothing(q: Queue)
    ensures GrowsBy(q, q, 0)
  {
    assert q[|q|..] == [];
  }

  lemma GrowsByOne(q: Queue, e: (string, Schema))
    ensures GrowsBy(q, q + [e], Weight(e.1))
  {
    assert (q + [e])[|q|..] == [e];
    assert [e][1..] == [];
  }

  /** A property queues at most its own schema and its items, each only when
      an inline object. */
  lemma PropertyGrowth(key: string, name: string, v: Schema, q: Queue)
    ensures GrowsBy(q, q + PropertyPushes(key, name, v),
      (if EnqueuesSelf(v) then Weight(v) else 0) + (if EnqueuesItems(v) then Weight(v.items.value) else 0))
  {
    var a := if EnqueuesSelf(v) then [(key, v)] else [];
    var b := if EnqueuesItems(v) then [(name + "Item", v.items.value)] else [];
    assert (q + (a + b))[|q|..] == a + b;
    QueueWeightAppend(a, b);
    assert [(key, v)][1..] == [];
    if EnqueuesItems(v) {
      assert b[1..] == [];
    }
  }

  /** What can go wrong while generating a record: an empty property key
      (`ToTitleCase` throws) or a type `GetTypeFromKey` does not support. */
  predicate SchemaError(e: Exception) {
    e.ArgumentEmpty? || e.NotImplemented?
  }

  /** Generating a record only appends to the queue, at most `Potential(s)`
      of weight, and fails only with a `SchemaError`. */
  lemma {:induction false} RecordGrowth(className: string, ns: string, s: Schema, baseClass: Option<string>, q: Queue, generated: set<string>)
    ensures var r := RecordSpec(className, ns, s, baseClass, q, generated);
      && (r.Success? ==> GrowsBy(q, r.value.1, Potential(s)))
      && (r.Failure? ==> SchemaError(r.error))
    decreases s, 4
  {
    PropsGrowth(className, ns, s, 0, [], [], q, generated);
  }

  lemma {:induction false} EntryGrowth(className: string, ns: string, owner: Schema, key: string, v: Schema, q: Queue, generated: set<string>)
    ensures var r := EntryStep(className, ns, owner, key, v, q, generated);
      && (r.Success? ==> GrowsBy(q, r.value.2, EntryPotential(v)))
      && (r.Failure? ==> SchemaError(r.error))
    decreases v, 2
  {
    var r := EntryStep(className, ns, owner, key, v, q, generated);
    var pr := PropertyFor(className, key, v, owner);
    if pr.Failure? {
      TypeNameFailure(v);
    } else {
      var p := pr.value;
      var q1 := q + PropertyPushes(key, p.name, v);
      var own := (if EnqueuesSelf(v) then Weight(v) else 0) + (if EnqueuesItems(v) then Weight(v.items.value) else 0);
      PropertyGrowth(key, p.name, v, q);
      if HasOneOfItems(v) {
        OneOfGrowth(key, ns, v.items.value, q1, generated);
        if r.Success? {
          GrowsByChain(q, q1, r.value.2, own, VariantsPotential(v.items.value, 0));
        }
      }
    }
  }

  lemma {:induction false} PropsGrowth(className: string, ns: string, s: Schema, i: nat,
                                       props: seq<Property>, convs: seq<OneOfConverter>, q: Queue, generated: set<string>)
    requires i <= |PropertiesOf(s)|
    ensures var r := PropsLoop(className, ns, s, i, props, convs, q, generated);
      && (r.Success? ==> GrowsBy(q, r.value.2, PropsPotential(s, i)))
      && (r.Failure? ==> SchemaError(r.error))
    decreases s, 3, |PropertiesOf(s)| - i
  {
    var r := PropsLoop(className, ns, s, i, props, convs, q, generated);
    if i == |PropertiesOf(s)| {
      GrowsByNothing(q);
    } else {
      var key := s.properties.entries[i].0;
      var v := s.properties.entries[i].1;
      var er := EntryStep(className, ns, s, key, v, q, generated);
      EntryGrowth(className, ns, s, key, v, q, generated);
      if er.Success? {
        var e := er.value;
        var convs' := if e.1.Some? then convs + [e.1.value] else convs;
        PropsGrowth(className, ns, s, i + 1, props + [e.0], convs', e.2, generated);
        if r.Success? {
          assert PropsPotential(s, i) == EntryPotential(v) + PropsPotential(s, i + 1);
          GrowsByChain(q, e.2, r.value.2, EntryPotential(v), PropsPotential(s, i + 1));
        }
      }
    }
  }

  lemma {:induction false} OneOfGrowth(owner: string, ns: string, items: Schema, q: Queue, generated: set<string>)
    ensures var r := OneOfSpec(owner, ns, items, q, generated);
      && (r.Success? ==> GrowsBy(q, r.value.1, if items.oneOf.OneOf? then VariantsPotential(items, 0) else 0))
      && (r.Failure? ==> SchemaError(r.error))
    decreases items, 1
  {
    var r := OneOfSpec(owner, ns, items, q, generated);
    var t := Title(ClassName(Some(owner)));
    if items.oneOf.NoOneOf? || (t.Success? && t.value + "OneOf" in generated) {
      GrowsByNothing(q);
    } else if t.Success? {
      VariantsGrowth(owner, t.value, ns, items, 0, [], [], q, generated);
    }
  }

  lemma {:induction false} VariantsGrowth(owner: string, name: string, ns: string, items: Schema, j: nat,
                                          classes: seq<Class>, classNames: seq<string>, q: Queue, generated: set<string>)
    requires items.oneOf.OneOf? && j <= |items.oneOf.variants|
    ensures var r := VariantsLoop(owner, name, ns, items, j, classes, classNames, q, generated);
      && (r.Success? ==> GrowsBy(q, r.value.2, VariantsPotential(items, j)))
      && (r.Failure? ==> SchemaError(r.error))
    decreases items, 0, |items.oneOf.variants| - j
  {
    var r := VariantsLoop(owner, name, ns, items, j, classes, classNames, q, generated);
    if j == |items.oneOf.variants| {
      GrowsByNothing(q);
    } else {
      var v := items.oneOf.variants[j];
      var className := VariantClassName(owner, v);
      var cr := RecordSpec(className, ns, v, Some(name + "OneOf"), q, generated);
      RecordGrowth(className, ns, v, Some(name + "OneOf"), q, generated);
      if cr.Success? {
        var cq := cr.value;
        VariantsGrowth(owner, name, ns, items, j + 1, classes + [cq.0], classNames + [className], cq.1, generated);
        if r.Success? {
          GrowsByChain(q, cq.1, r.value.2, Potential(v), VariantsPotential(items, j + 1));
        }
      }
    }
  }

  /** The `while (TryDequeue)` loop. Each dequeued entry either is skipped or
      is replaced by what its record queues, which weighs less than it. */
  function Drain(ns: string, st: GenState): Result<GenState, Exception>
    decreases QueueWeight(st.queue)
  {
    if st.queue == [] then Success(st)
    else
      var name := st.queue[0].0;
      var s := st.queue[0].1;
      var rest := st.queue[1..];
      var className :- Title(ClassName(Some(name)));
      if className in st.generated then Drain(ns, st.(queue := rest))
      else
        var generated := st.generated + {className};
        var cq :- RecordSpec(className, ns, s, None, rest, generated);
        RecordGrowth(className, ns, s, None, rest, generated);
        assert cq.1 == rest + cq.1[|rest|..];
        QueueWeightAppend(rest, cq.1[|rest|..]);
        var classes :- AddClass(st.classes, className, cq.0);
        Drain(ns, GenState(cq.1, generated, classes))
  }

  /** `GenerateDataClasses(document)` on a generator in state `st`. */
  function Generate(doc: Document, st: GenState): Result<GenState, Exception> {
    var ns :- ModelsNamespace(doc.info);
    var st1 :- TopLevelLoop(ns, doc.schemas, 0, st);
    Drain(ns, st1)
  }

  // ------------------------------------------------------------- lemmas

  /** A property fails exactly on an empty key (`ToTitleCase` throws) or on
      a scalar type `GetTypeFromKey` rejects. Otherwise it is never named
      like its class, it is `Title(key)` with "Property" appended exactly
      on a clash, its JSON name is the key, and its flags are copied
      independently: required exactly when the key is listed in the
      owner's `Required`, nullable and deprecated as the schema says. */
  lemma PropertyForFacts(className: string, key: string, v: Schema, owner: Schema)
    ensures PropertyFor(className, key, v, owner).Failure? <==>
      key == "" ||
      (v.schemaType.Some? && v.schemaType.value != "object" && !HasOneOfItems(v) && TypeName(v).Failure?)
    ensures var r := PropertyFor(className, key, v, owner);
      r.Success? ==>
        var p := r.value;
        && p.name != className
        && (p.name == Pascalize(key) <==> className != Pascalize(key))
        && (p.name != Pascalize(key) ==> p.name == Pascalize(key) + "Property")
        && p.jsonName == key
        && (p.isRequired <==> owner.required.Some? && key in owner.required.value)
        && p.isNullable == v.nullable
        && p.isDeprecated == v.deprecated
        && p.description == v.description
  {
    var r := PropertyFor(className, key, v, owner);
    if r.Success? {
      var t := Pascalize(key);
      assert |t + "Property"| > |t|;
    }
  }

  /** The type of a property: an array of oneOf items is an array of the
      oneOf base record; any other non-object type is `GetTypeFromKey`'s;
      a `$ref` names the referenced class; no type is `object`; an inline
      object is named by the property's title, under which it is queued. */
  lemma PropertyTypeCases(className: string, key: string, v: Schema, owner: Schema, q: Queue)
    requires PropertyFor(className, key, v, owner).Success?
    ensures var p := PropertyFor(className, key, v, owner).value;
      var title := Pascalize(key);
      && (HasOneOfItems(v) && v.schemaType.Some? && v.schemaType.value != "object" ==> p.typeName == title + "OneOf[]")
      && (v.schemaType.Some? && v.schemaType.value != "object" && !HasOneOfItems(v) ==> Success(p.typeName) == TypeName(v))
      && (v.schemaType.Some? && v.schemaType.value != "object" ==> !EnqueuesSelf(v))
      && (v.reference.Some? && (v.schemaType.None? || v.schemaType == Some("object")) ==> p.typeName == ClassName(v.reference))
      && (v.reference.None? && v.schemaType.None? ==> p.typeName == "object")
      && (EnqueuesSelf(v) <==> p.typeName == title && v.reference.None? && v.schemaType == Some("object"))
      && (EnqueuesSelf(v) ==> (q + PropertyPushes(key, p.name, v))[|q|] == (key, v))
  {
    var p := PropertyFor(className, key, v, owner).value;
    var title := Pascalize(key);
    if v.reference.None? && v.schemaType == Some("object") {
      assert p.typeName == title;
    }
    if p.typeName == title && v.reference.None? && v.schemaType == Some("object") {
      assert EnqueuesSelf(v);
    }
  }

  /** The record of `s` has one property per entry of `s.Properties`, in
      order, each the one `GenerateProperty` makes of that entry: so a record
      fails whenever one of its properties does. It is named `className`, in
      namespace `ns`, deriving from `baseClass`. */
  lemma RecordProperties(className: string, ns: string, s: Schema, baseClass: Option<string>, q: Queue, generated: set<string>)
    ensures var r := RecordSpec(className, ns, s, baseClass, q, generated);
      r.Success? ==>
        var c := r.value.0;
        && c.name == className && c.namespace == ns && c.shape == RecordShape(baseClass)
        && |c.properties| == |PropertiesOf(s)|
        && forall i :: 0 <= i < |PropertiesOf(s)| ==>
             PropertyFor(className, PropertiesOf(s)[i].0, PropertiesOf(s)[i].1, s) == Success(c.properties[i])
  {
    PropsLoopProperties(className, ns, s, 0, [], [], q, generated);
  }

  lemma {:induction false} PropsLoopProperties(className: string, ns: string, s: Schema, i: nat,
                                               props: seq<Property>, convs: seq<OneOfConverter>, q: Queue, generated: set<string>)
    requires i <= |PropertiesOf(s)| && |props| == i
    requires forall j :: 0 <= j < i ==> PropertyFor(className, PropertiesOf(s)[j].0, PropertiesOf(s)[j].1, s) == Success(props[j])
    ensures var r := PropsLoop(className, ns, s, i, props, convs, q, generated);
      r.Success? ==>
        && |r.value.0| == |PropertiesOf(s)|
        && forall j :: 0 <= j < |PropertiesOf(s)| ==>
             PropertyFor(className, PropertiesOf(s)[j].0, PropertiesOf(s)[j].1, s) == Success(r.value.0[j])
    decreases |PropertiesOf(s)| - i
  {
    var r := PropsLoop(className, ns, s, i, props, convs, q, generated);
    if i < |PropertiesOf(s)| && r.Success? {
      var key := s.properties.entries[i].0;
      var v := s.properties.entries[i].1;
      var e := EntryStep(className, ns, s, key, v, q, generated).value;
      var convs' := if e.1.Some? then convs + [e.1.value] else convs;
      PropsLoopProperties(className, ns, s, i + 1, props + [e.0], convs', e.2, generated);
    }
  }

  /** `new OpenApiSchema()` has no properties: its record is the base
      record, and it queues nothing. */
  lemma BaseRecordOfEmptySchema(name: string, ns: string, q: Queue, generated: set<string>)
    ensures RecordSpec(name, ns, EmptySchema, None, q, generated) == Success((BaseRecord(name, ns), q))
  {
  }

  /** `GenerateOneOf` on oneOf items: it yields no converter exactly when
      the base name is already registered. Otherwise the converter is
      named after the base record `Title(ClassName(owner)) + "OneOf"` with
      "ConverterJson" appended and holds 1 + N classes: the base record,
      without properties, then one record per variant in declared order,
      named `ClassName(owner) + ClassName(title)` and deriving from the
      base. */
  lemma OneOfShape(owner: string, ns: string, items: Schema, q: Queue, generated: set<string>)
    requires items.oneOf.OneOf?
    ensures var r := OneOfSpec(owner, ns, items, q, generated);
      var t := Title(ClassName(Some(owner)));
      && (r.Success? && r.value.0.None? <==> t.Success? && t.value + "OneOf" in generated)
      && (r.Success? && r.value.0.Some? ==>
           var conv := r.value.0.value;
           var base := t.value + "OneOf";
           var vs := items.oneOf.variants;
           && conv.baseClassName == base && conv.name == base + "ConverterJson" && conv.namespace == ns
           && |conv.oneOfs| == 1 + |vs| && conv.oneOfs[0] == BaseRecord(base, ns)
           && conv.oneOfs[0].properties == []
           && |conv.variantClassNames| == |vs|
           && forall j :: 0 <= j < |vs| ==>
                && conv.variantClassNames[j] == ClassName(Some(owner)) + ClassName(vs[j].title)
                && conv.oneOfs[j + 1].name == conv.variantClassNames[j]
                && conv.oneOfs[j + 1].namespace == ns
                && conv.oneOfs[j + 1].shape == RecordShape(Some(base)))
  {
    var r := OneOfSpec(owner, ns, items, q, generated);
    var t := Title(ClassName(Some(owner)));
    if t.Success? && t.value + "OneOf" !in generated {
      VariantsShape(owner, t.value, ns, items, 0, [], [], q, generated);
    }
  }

  lemma {:induction false} VariantsShape(owner: string, name: string, ns: string, items: Schema, j: nat,
                                         classes: seq<Class>, classNames: seq<string>, q: Queue, generated: set<string>)
    requires items.oneOf.OneOf? && j <= |items.oneOf.variants|
    requires |classes| == j && |classNames| == j
    requires forall k :: 0 <= k < j ==>
      && classNames[k] == VariantClassName(owner, items.oneOf.variants[k])
      && classes[k].name == classNames[k] && classes[k].namespace == ns
      && classes[k].shape == RecordShape(Some(name + "OneOf"))
    ensures var r := VariantsLoop(owner, name, ns, items, j, classes, classNames, q, generated);
      r.Success? ==>
        var vs := items.oneOf.variants;
        && |r.value.0| == |vs| && |r.value.1| == |vs|
        && forall k :: 0 <= k < |vs| ==>
             && r.value.1[k] == VariantClassName(owner, vs[k])
             && r.value.0[k].name == r.value.1[k] && r.value.0[k].namespace == ns
             && r.value.0[k].shape == RecordShape(Some(name + "OneOf"))
    decreases |items.oneOf.variants| - j
  {
    var r := VariantsLoop(owner, name, ns, items, j, classes, classNames, q, generated);
    if j < |items.oneOf.variants| && r.Success? {
      var v := items.oneOf.variants[j];
      var className := VariantClassName(owner, v);
      var cq := RecordSpec(className, ns, v, Some(name + "OneOf"), q, generated).value;
      RecordProperties(className, ns, v, Some(name + "OneOf"), q, generated);
      var classes' := classes + [cq.0];
      var classNames' := classNames + [className];
      forall k | 0 <= k < j + 1
        ensures && classNames'[k] == VariantClassName(owner, items.oneOf.variants[k])
                && classes'[k].name == classNames'[k] && classes'[k].namespace == ns
                && classes'[k].shape == RecordShape(Some(name + "OneOf"))
      {
        if k < j {
          assert classes'[k] == classes[k] && classNames'[k] == classNames[k];
        }
      }
      VariantsShape(owner, name, ns, items, j + 1, classes', classNames', cq.1, generated);
    }
  }

  /** The two filters skip exactly the schemas whose type is not "object",
      "string" or "array", and the arrays with neither items nor enum. */
  lemma UnsupportedCharacterisation(s: Schema)
    ensures Unsupported(s) <==>
      (s.schemaType != Some("object") && s.schemaType != Some("string") && s.schemaType != Some("array")) ||
      (s.schemaType == Some("array") && s.enumValues.None? && s.items.None?)
  {
  }

  // ------------------------------------------------------- the registry

  /** The generator's registry and result agree: the result's keys are
      distinct and are exactly the registered names, and every class is
      stored under its own name. */
  predicate Consistent(st: GenState) {
    && DistinctKeys(st.classes)
    && (forall k :: k in st.generated ==> HasKey(st.classes, k))
    && (forall i :: 0 <= i < |st.classes| ==> st.classes[i].0 in st.generated)
    && (forall i :: 0 <= i < |st.classes| ==> st.classes[i].1.name == st.classes[i].0)
  }

  /** A state step that keeps what was there: the result only gains entries
      at its end, the registry only grows. */
  predicate Extends(st: GenState, st': GenState) {
    && |st.classes| <= |st'.classes| && st'.classes[..|st.classes|] == st.classes
    && st.generated <= st'.generated
  }

  lemma ExtendsTransitive(a: GenState, b: GenState, c: GenState)
    requires Extends(a, b) && Extends(b, c)
    ensures Extends(a, c)
  {
    assert c.classes[..|a.classes|] == c.classes[..|b.classes|][..|a.classes|];
  }

  /** Registering a name that is not yet registered and adding its class
      under it never throws and keeps the registry consistent. */
  lemma RegisterAndAdd(st: GenState, className: string, c: Class, q: Queue)
    requires Consistent(st) && className !in st.generated && c.name == className
    ensures AddClass(st.classes, className, c) == Success(st.classes + [(className, c)])
    ensures var st' := GenState(q, st.generated + {className}, st.classes + [(className, c)]);
      Consistent(st') && Extends(st, st')
  {
    var d := st.classes + [(className, c)];
    assert Keys(d) == Keys(st.classes) + [className];
    assert d[..|st.classes|] == st.classes;
  }

  /** One top-level schema: a name registered before (first writer wins),
      an unsupported schema or a ProblemDetails name leaves the state as
      it is; otherwise the new class is stored under its fresh name. No
      step throws `DuplicateKey`. */
  lemma TopLevelStepConsistent(ns: string, key: string, s: Schema, st: GenState)
    requires Consistent(st)
    ensures var r := TopLevelStep(ns, key, s, st);
      && (r.Failure? ==> !r.error.DuplicateKey?)
      && (r.Success? ==> Consistent(r.value) && Extends(st, r.value))
      && (var t := Title(ClassName(Some(key)));
          t.Success? && t.value in st.generated ==> r == Success(st))
  {
    var r := TopLevelStep(ns, key, s, st);
    var t := Title(ClassName(Some(key)));
    if !Unsupported(s) && t.Success? && t.value !in ProblemDetailsNames && t.value !in st.generated {
      var className := t.value;
      var generated := st.generated + {className};
      if s.enumValues.Some? {
        RegisterAndAdd(st, className, GenerateEnum(className, ns, s), st.queue);
      } else {
        var target := if IsInlineObjectArray(s) then s.items.value else s;
        var cq := RecordSpec(className, ns, target, None, st.queue, generated);
        RecordGrowth(className, ns, target, None, st.queue, generated);
        if cq.Success? {
          RecordProperties(className, ns, target, None, st.queue, generated);
          RegisterAndAdd(st, className, cq.value.0, cq.value.1);
        }
      }
    }
  }

  lemma {:induction false} TopLevelLoopConsistent(ns: string, schemas: seq<(string, Schema)>, i: nat, st: GenState)
    requires i <= |schemas| && Consistent(st)
    ensures var r := TopLevelLoop(ns, schemas, i, st);
      && (r.Failure? ==> !r.error.DuplicateKey?)
      && (r.Success? ==> Consistent(r.value) && Extends(st, r.value))
    decreases |schemas| - i
  {
    if i < |schemas| {
      TopLevelStepConsistent(ns, schemas[i].0, schemas[i].1, st);
      var st' := TopLevelStep(ns, schemas[i].0, schemas[i].1, st);
      if st'.Success? {
        TopLevelLoopConsistent(ns, schemas, i + 1, st'.value);
        var r := TopLevelLoop(ns, schemas, i + 1, st'.value);
        if r.Success? {
          ExtendsTransitive(st, st'.value, r.value);
        }
      }
    }
  }

  /** The drain keeps the registry consistent, never throws `DuplicateKey`,
      keeps every class already generated (a queued entry whose name is
      registered is dropped) and, when it returns, has emptied the queue. */
  lemma {:induction false} DrainConsistent(ns: string, st: GenState)
    requires Consistent(st)
    ensures var r := Drain(ns, st);
      && (r.Failure? ==> !r.error.DuplicateKey?)
      && (r.Success? ==> Consistent(r.value) && Extends(st, r.value) && r.value.queue == [])
    decreases QueueWeight(st.queue)
  {
    if st.queue != [] {
      var name := st.queue[0].0;
      var s := st.queue[0].1;
      var rest := st.queue[1..];
      var t := Title(ClassName(Some(name)));
      if t.Success? {
        var className := t.value;
        if className in st.generated {
          DrainConsistent(ns, st.(queue := rest));
        } else {
          var generated := st.generated + {className};
          var cq := RecordSpec(className, ns, s, None, rest, generated);
          RecordGrowth(className, ns, s, None, rest, generated);
          if cq.Success? {
            assert cq.value.1 == rest + cq.value.1[|rest|..];
            QueueWeightAppend(rest, cq.value.1[|rest|..]);
            RecordProperties(className, ns, s, None, rest, generated);
            RegisterAndAdd(st, className, cq.value.0, cq.value.1);
            var st' := GenState(cq.value.1, generated, st.classes + [(className, cq.value.0)]);
            DrainConsistent(ns, st');
            var r := Drain(ns, st');
            if r.Success? {
              ExtendsTransitive(st, st', r.value);
            }
          }
        }
      }
    }
  }

  /** `GenerateDataClasses` from a consistent state (a fresh generator is
      one): it never throws `DuplicateKey`, the result's keys are exactly
      the registered names, every earlier class is kept, and the queue is
      empty at the end. */
  lemma GenerateConsistent(doc: Document, st: GenState)
    requires Consistent(st)
    ensures var r := Generate(doc, st);
      && (r.Failure? ==> !r.error.DuplicateKey?)
      && (r.Success? ==> Consistent(r.value) && Extends(st, r.value) && r.value.queue == [])
  {
    var ns := ModelsNamespace(doc.info);
    if ns.Success? {
      TopLevelLoopConsistent(ns.value, doc.schemas, 0, st);
      var st1 := TopLevelLoop(ns.value, doc.schemas, 0, st);
      if st1.Success? {
        DrainConsistent(ns.value, st1.value);
        var r := Drain(ns.value, st1.value);
        if r.Success? {
          ExtendsTransitive(st, st1.value, r.value);
        }
      }
    }
  }

  lemma FreshStateConsistent()
    ensures Consistent(GenState([], {}, []))
  {
  }
}
