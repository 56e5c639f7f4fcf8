/** Generator/Models: what the data-class generator produces. The C# source
    text of a class is not modelled character by character; a class carries
    instead the facts its text is rendered from (enum members, base class,
    per-property attributes). */
module Models {
  import opened Wrappers
  import opened Dictionaries

  /** Property.cs, plus the two facts only the rendered text shows: the JSON
      name of `[JsonPropertyName]` and whether `[Obsolete]` is emitted. */
  datatype Property = Property(
    name: string,
    typeName: string,
    isRequired: bool,
    isNullable: bool,
    description: Option<string>,
    jsonName: string,
    isDeprecated: bool)

  /** How a class's text is shaped: a `public enum` with one member per enum
      value (and the schema's summary), or a `public record` with an
      optional base record. */
  datatype ClassShape =
    | EnumShape(summary: Option<string>, members: seq<string>)
    | RecordShape(baseClass: Option<string>)

  /** Class.cs. */
  datatype Class = Class(
    name: string,
    namespace: string,
    shape: ClassShape,
    properties: seq<Property>,
    oneOfConverters: seq<OneOfConverter>)

  /** OneOfConverter.cs. The converter's text is fixed by the base record it
      converts and the variant class names it tries, kept here; `oneOfs` is
      the base record followed by one record per variant. */
  datatype OneOfConverter = OneOfConverter(
    name: string,
    namespace: string,
    baseClassName: string,
    variantClassNames: seq<string>,
    oneOfs: seq<Class>)

  /** DataClassGenerationResult.cs: the classes by name, in insertion order. */
  datatype DataClassGenerationResult = DataClassGenerationResult(classes: Dict<Class>)

  /** `Classes.Sum(pair => pair.Value.OneOfConverters.Count)`. */
  function ConverterCount(classes: Dict<Class>): nat {
    if classes == [] then 0
    else |classes[0].1.oneOfConverters| + ConverterCount(classes[1..])
  }

  /** `Classes.SelectMany(pair => pair.Value.OneOfConverters)`. */
  function ConvertersOf(classes: Dict<Class>): seq<OneOfConverter> {
    if classes == [] then []
    else classes[0].1.oneOfConverters + ConvertersOf(classes[1..])
  }

  /** `ClassCount`: every class plus every oneOf converter. */
  function ClassCount(r: DataClassGenerationResult): nat {
    |r.classes| + ConverterCount(r.classes)
  }

  function Converters(r: DataClassGenerationResult): seq<OneOfConverter> {
    ConvertersOf(r.classes)
  }

  /** The converters listed are exactly as many as `ClassCount` adds to the
      number of classes; the count equals the number of classes exactly when
      no class has a converter. */
  lemma {:induction false} ClassCountAndConverters(r: DataClassGenerationResult)
    ensures |Converters(r)| == ClassCount(r) - |r.classes|
    ensures ClassCount(r) >= |r.classes|
    ensures ClassCount(r) == |r.classes| <==> forall i :: 0 <= i < |r.classes| ==> r.classes[i].1.oneOfConverters == []
    decreases |r.classes|
  {
    var c := r.classes;
    if c != [] {
      var rest := DataClassGenerationResult(c[1..]);
      ClassCountAndConverters(rest);
      assert forall i :: 1 <= i < |c| ==> c[i] == c[1..][i - 1];
      if ClassCount(rest) == |rest.classes| && c[0].1.oneOfConverters == [] {
        forall i | 0 <= i < |c| ensures c[i].1.oneOfConverters == [] {
          if i > 0 {
            assert c[i] == c[1..][i - 1];
          }
        }
      }
    }
  }

  /** Converters are listed class by class in insertion order. */
  lemma {:induction false} ConvertersOfAppend(a: Dict<Class>, b: Dict<Class>)
    ensures ConvertersOf(a + b) == ConvertersOf(a) + ConvertersOf(b)
    ensures ConverterCount(a + b) == ConverterCount(a) + ConverterCount(b)
  {
    if a == [] {
      assert a + b == b;
    } else {
      assert (a + b)[0] == a[0];
      assert (a + b)[1..] == a[1..] + b;
      ConvertersOfAppend(a[1..], b);
    }
  }

  /** Adding one class adds one to `ClassCount` plus its converters, which
      are appended to `Converters`. */
  lemma AddClassCount(classes: Dict<Class>, key: string, c: Class)
    ensures ClassCount(DataClassGenerationResult(classes + [(key, c)])) ==
      ClassCount(DataClassGenerationResult(classes)) + 1 + |c.oneOfConverters|
    ensures Converters(DataClassGenerationResult(classes + [(key, c)])) ==
      Converters(DataClassGenerationResult(classes)) + c.oneOfConverters
  {
    ConvertersOfAppend(classes, [(key, c)]);
    assert [(key, c)][1..] == [];
  }
}
