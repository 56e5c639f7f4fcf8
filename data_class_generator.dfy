/** Generator/DataClassGenerator.cs as the object it is: the pending-schema
    queue, the set of generated names and the result are fields its
    methods update. Each method is proved to follow the rules in
    `DataClassRules`, where the properties of those rules are proved. */
module DataClasses {
  import opened Wrappers
  import opened Dictionaries
  import opened OpenApi
  import opened Extensions
  import opened BaseGenerator
  import opened Models
  import opened DataClassRules

  class DataClassGenerator {
    /** `_missingSchemasToGenerate`. */
    var queue: Queue
    /** `_generatedSchemas`. */
    var generated: set<string>
    /** `_result.Classes`. */
    var classes: Dict<Class>

    function State(): GenState
      reads this
    {
      GenState(queue, generated, classes)
    }

    constructor()
      ensures State() == GenState([], {}, [])
      ensures Consistent(State())
    {
      queue := [];
      generated := {};
      classes := [];
    }

    /** `GenerateProperty`: an inline object is queued under its key while
        the type is chosen, inline object items under the final property
        name followed by "Item". */
    method GenerateProperty(className: string, key: string, v: Schema, owner: Schema) returns (r: Result<Property, Exception>)
      modifies this
      ensures r == PropertyFor(className, key, v, owner)
      ensures queue == old(queue) + if r.Success? then PropertyPushes(key, r.value.name, v) else []
      ensures generated == old(generated) && classes == old(classes)
    {
      var isRequired := IsRequired(owner, key);
      var title := Title(key);
      if title.Failure? {
        return Failure(title.error);
      }
      var propertyName := title.value;
      var propertyType: string;
      if v.schemaType.Some? && v.schemaType.value != "object" {
        if HasOneOfItems(v) {
          propertyType := title.value + "OneOf[]";
        } else {
          var t := TypeName(v);
          if t.Failure? {
            return Failure(t.error);
          }
          propertyType := t.value;
        }
      } else if v.reference.Some? {
        propertyType := ClassName(v.reference);
      } else if v.schemaType.None? {
        propertyType := "object";
      } else {
        queue := queue + [(key, v)];
        propertyType := propertyName;
      }
      assert PropertyTypeName(title.value, v) == Success(propertyType);
      ghost var selfPush := if EnqueuesSelf(v) then [(key, v)] else [];
      assert queue == old(queue) + selfPush;
      if className == propertyName {
        propertyName := propertyName + "Property";
      }
      if EnqueuesItems(v) {
        queue := queue + [(propertyName + "Item", v.items.value)];
      }
      assert queue == old(queue) + PropertyPushes(key, propertyName, v);
      return Success(Property(propertyName, propertyType, isRequired, v.nullable, v.description, key, v.deprecated));
    }

    /** `GenerateRecord`: one property per entry, in order, and the
        converter of every property whose items have a oneOf. */
    method GenerateRecord(className: string, ns: string, s: Schema, baseClass: Option<string>) returns (r: Result<Class, Exception>)
      modifies this
      ensures var spec := RecordSpec(className, ns, s, baseClass, old(queue), generated);
        && (r.Success? <==> spec.Success?)
        && (r.Success? ==> r.value == spec.value.0 && queue == spec.value.1)
        && (r.Failure? ==> r.error == spec.error)
      ensures generated == old(generated) && classes == old(classes)
      decreases s, 4
    {
      var props: seq<Property> := [];
      var convs: seq<OneOfConverter> := [];
      for i := 0 to |PropertiesOf(s)|
        invariant generated == old(generated) && classes == old(classes)
        invariant PropsLoop(className, ns, s, 0, [], [], old(queue), generated) ==
                  PropsLoop(className, ns, s, i, props, convs, queue, generated)
      {
        var e := GenerateEntry(className, ns, s, i);
        if e.Failure? {
          return Failure(e.error);
        }
        props := props + [e.value.0];
        if e.value.1.Some? {
          convs := convs + [e.value.1.value];
        }
      }
      return Success(Class(className, ns, RecordShape(baseClass), props, convs));
    }

    /** One iteration of the loop over the properties of `s`: the property
        of entry `i`, then the converter of its items' oneOf, if any. */
    method GenerateEntry(className: string, ns: string, s: Schema, i: nat) returns (r: Result<(Property, Option<OneOfConverter>), Exception>)
      requires i < |PropertiesOf(s)|
      modifies this
      ensures var spec := EntryStep(className, ns, s, PropertiesOf(s)[i].0, PropertiesOf(s)[i].1, old(queue), generated);
        && (r.Success? <==> spec.Success?)
        && (r.Success? ==> spec.value == (r.value.0, r.value.1, queue))
        && (r.Failure? ==> r.error == spec.error)
      ensures generated == old(generated) && classes == old(classes)
      decreases s, 3
    {
      var key := PropertiesOf(s)[i].0;
      var v := PropertiesOf(s)[i].1;
      var p := GenerateProperty(className, key, v, s);
      if p.Failure? {
        return Failure(p.error);
      }
      if !HasOneOfItems(v) {
        return Success((p.value, None));
      }
      assert v.items.value < s;
      var c := GenerateOneOf(key, ns, v.items.value);
      if c.Failure? {
        return Failure(c.error);
      }
      return Success((p.value, c.value));
    }

    /** `GenerateOneOf`: nothing for items without oneOf or for a base name
        already registered; otherwise the base record, one record per
        variant deriving from it, and the converter over them. The base
        record is built directly: `GenerateRecord` on `new OpenApiSchema()`
        yields it (`BaseRecordOfEmptySchema`). */
    method GenerateOneOf(owner: string, ns: string, items: Schema) returns (r: Result<Option<OneOfConverter>, Exception>)
      modifies this
      ensures var spec := OneOfSpec(owner, ns, items, old(queue), generated);
        && (r.Success? <==> spec.Success?)
        && (r.Success? ==> r.value == spec.value.0 && queue == spec.value.1)
        && (r.Failure? ==> r.error == spec.error)
      ensures generated == old(generated) && classes == old(classes)
      decreases items, 1
    {
      if items.oneOf.NoOneOf? {
        return Success(None);
      }
      var t := Title(ClassName(Some(owner)));
      if t.Failure? {
        return Failure(t.error);
      }
      var name := t.value;
      if name + "OneOf" in generated {
        return Success(None);
      }
      var base := BaseRecord(name + "OneOf", ns);
      var variantClasses: seq<Class> := [];
      var classNames: seq<string> := [];
      var variants := items.oneOf.variants;
      for j := 0 to |variants|
        invariant generated == old(generated) && classes == old(classes)
        invariant VariantsLoop(owner, name, ns, items, 0, [], [], old(queue), generated) ==
                  VariantsLoop(owner, name, ns, items, j, variantClasses, classNames, queue, generated)
      {
        var className := ClassName(Some(owner)) + ClassName(variants[j].title);
        classNames := classNames + [className];
        var c := GenerateRecord(className, ns, variants[j], Some(name + "OneOf"));
        if c.Failure? {
          return Failure(c.error);
        }
        variantClasses := variantClasses + [c.value];
      }
      return Success(Some(OneOfConverter(ConverterName(name + "OneOf"), ns, name + "OneOf", classNames,
                                         [base] + variantClasses)));
    }

    /** One iteration of the loop over the component schemas. */
    method GenerateComponent(ns: string, key: string, s: Schema) returns (r: Result<(), Exception>)
      modifies this
      ensures var spec := TopLevelStep(ns, key, s, old(State()));
        && (r.Success? <==> spec.Success?)
        && (r.Success? ==> State() == spec.value)
        && (r.Failure? ==> r.error == spec.error)
    {
      if s.schemaType.Some? && s.schemaType.value != "object" &&
         s.schemaType.value != "string" && s.enumValues.None? && s.items.None? {
        return Success(());
      }
      if s.schemaType != Some("object") && s.schemaType != Some("array") && s.schemaType != Some("string") {
        return Success(());
      }
      var t := Title(ClassName(Some(key)));
      if t.Failure? {
        return Failure(t.error);
      }
      var className := t.value;
      if className in ProblemDetailsNames || className in generated {
        return Success(());
      }
      generated := generated + {className};
      var c: Class;
      if s.enumValues.Some? {
        c := GenerateEnum(className, ns, s);
      } else {
        var target := if IsInlineObjectArray(s) then s.items.value else s;
        var rc := GenerateRecord(className, ns, target, None);
        if rc.Failure? {
          return Failure(rc.error);
        }
        c := rc.value;
      }
      var added := AddClass(classes, className, c);
      if added.Failure? {
        return Failure(added.error);
      }
      classes := added.value;
      return Success(());
    }

    /** One iteration of the `while (TryDequeue)` loop: the first queued
        entry is removed and, unless its name is registered, its record is
        generated and added. What it queues weighs less than the entry. */
    method GenerateQueued(ns: string) returns (r: Result<(), Exception>)
      requires queue != []
      modifies this
      ensures r.Success? ==> QueueWeight(queue) < QueueWeight(old(queue))
      ensures Drain(ns, old(State())) == if r.Success? then Drain(ns, State()) else Failure(r.error)
    {
      var entry := queue[0];
      queue := queue[1..];
      var t := Title(ClassName(Some(entry.0)));
      if t.Failure? {
        return Failure(t.error);
      }
      var className := t.value;
      if className in generated {
        return Success(());
      }
      generated := generated + {className};
      ghost var rest := queue;
      var rc := GenerateRecord(className, ns, entry.1, None);
      if rc.Failure? {
        return Failure(rc.error);
      }
      RecordGrowth(className, ns, entry.1, None, rest, generated);
      assert queue == rest + queue[|rest|..];
      QueueWeightAppend(rest, queue[|rest|..]);
      var added := AddClass(classes, className, rc.value);
      if added.Failure? {
        return Failure(added.error);
      }
      classes := added.value;
      return Success(());
    }

    /** The `foreach` over the component schemas, in document order. */
    method GenerateComponents(ns: string, schemas: seq<(string, Schema)>) returns (r: Result<(), Exception>)
      modifies this
      ensures var spec := TopLevelLoop(ns, schemas, 0, old(State()));
        && (r.Success? <==> spec.Success?)
        && (r.Success? ==> State() == spec.value)
        && (r.Failure? ==> r.error == spec.error)
    {
      for i := 0 to |schemas|
        invariant TopLevelLoop(ns, schemas, 0, old(State())) == TopLevelLoop(ns, schemas, i, State())
      {
        var step := GenerateComponent(ns, schemas[i].0, schemas[i].1);
        if step.Failure? {
          return Failure(step.error);
        }
      }
      return Success(());
    }

    /** The `while (TryDequeue)` loop: queued schemas until none is left. */
    method DrainQueue(ns: string) returns (r: Result<(), Exception>)
      modifies this
      ensures var spec := Drain(ns, old(State()));
        && (r.Success? <==> spec.Success?)
        && (r.Success? ==> State() == spec.value)
        && (r.Failure? ==> r.error == spec.error)
    {
      while queue != []
        invariant Drain(ns, old(State())) == Drain(ns, State())
        decreases QueueWeight(queue)
      {
        var step := GenerateQueued(ns);
        if step.Failure? {
          return Failure(step.error);
        }
      }
      return Success(());
    }

    /** `GenerateDataClasses`: the component schemas in order, then the
        queue until it is empty; it returns the generator's own result. */
    method GenerateDataClasses(doc: Document) returns (r: Result<DataClassGenerationResult, Exception>)
      modifies this
      ensures var spec := Generate(doc, old(State()));
        && (r.Success? <==> spec.Success?)
        && (r.Success? ==> r.value == DataClassGenerationResult(classes) && State() == spec.value)
        && (r.Failure? ==> r.error == spec.error)
      ensures old(Consistent(State())) ==>
        && (r.Failure? ==> !r.error.DuplicateKey?)
        && (r.Success? ==> Consistent(State()) && Extends(old(State()), State()) && queue == [])
    {
      if Consistent(State()) {
        GenerateConsistent(doc, State());
      }
      var nsr := ModelsNamespace(doc.info);
      if nsr.Failure? {
        return Failure(nsr.error);
      }
      var ns := nsr.value;
      var top := GenerateComponents(ns, doc.schemas);
      if top.Failure? {
        return Failure(top.error);
      }
      var drained := DrainQueue(ns);
      if drained.Failure? {
        return Failure(drained.error);
      }
      return Success(DataClassGenerationResult(classes));
    }
  }
}
