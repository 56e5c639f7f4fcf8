# OpenApiToCS in Dafny

OpenApiToCS reads a parsed OpenAPI 3 document and generates C# source. It
emits one record or enum per component schema, a JSON converter for every
`oneOf` array, and one HTTP client class per first path segment. This
project models the naming and type-resolution engine of that generator and
proves properties of the model:

- `Extensions` covers `ToTitleCase` and its memo cache, the buffer loop of
  `ManualPascalize`, and `FirstCharToLower`.
- `BaseGenerator` covers `GetClassNameFromKey` and its cache, `GetTypeFromKey`
  and `GenerateSummary`.
- `DataClassRules` and `DataClasses` form the data-class generator.
  `DataClassRules` states its rules as functions of the document and of the
  generator's state: the pending-schema queue, the set of generated names, and
  the result dictionary. `DataClasses.DataClassGenerator` is a class with those
  three fields, and its methods are proved to follow those rules. The model
  proves three properties of the rules:
  - consistency of the registry with the result;
  - termination of the queue drain, by a weight that every dequeued entry
    lowers;
  - the shape of records, enums and oneOf classes.
- `Models` covers `Class`, `Property`, `OneOfConverter` and
  `DataClassGenerationResult` with `ClassCount` and `Converters`.
- `OneOfDecoding` models the `Read` state machine that the emitted oneOf
  converter runs over the JSON reader's tokens. The class
  `OneOfDecoding.JsonOneOfConverter` is an instance of that converter, with its
  values dictionary. Its assignment step includes the type check that
  `PropertyInfo.SetValue` makes, so a number read for an `int` or `float`
  property makes the read throw.
- `Operations` covers `GenerateApiClasses` and `GenerateOperationCode`. It
  models the grouping of paths by first segment, the client and namespace
  names, and the fixed verb order. From each operation it derives the method
  name, the return type, the required and optional parameters, the request
  body argument, the signature text and the request URL with its query string.
  It also models `GetMethodNameFromPath`.
- `Wrappers`, `Dictionaries` and `OpenApi` hold shared definitions:
  `Option`/`Result`, the C# exceptions as error values, a dictionary as an
  insertion-ordered sequence, and the input document.

Every C# exception that escapes a generator is a `Failure` carrying the
exception kind, and it aborts the whole call. Every dictionary is an ordered
sequence of entries, so the order in which the generator iterates is explicit.

## Model

| member | source | states |
|---|---|---|
| Extensions.ToUpper | OpenApiToCS/Generator/Extensions.cs:47 | an ASCII lower-case letter becomes upper case and back again under `ToLower`; every other character is kept |
| Extensions.ToLower | OpenApiToCS/Generator/Extensions.cs:62 | an ASCII upper-case letter becomes lower case; every other character is kept |
| Extensions.Capitalized | OpenApiToCS/Generator/Extensions.cs:39-49 | capitalising at word starts keeps the length |
| Extensions.RemoveSeparators | OpenApiToCS/Generator/Extensions.cs:42-46 | removing the separators never lengthens the string |
| Extensions.KeptIndices | OpenApiToCS/Generator/Extensions.cs:39-49 | the positions the buffer copies are increasing, hold no separator, and include every non-separator position |
| Extensions.CapitalizedPrefix | OpenApiToCS/Generator/Extensions.cs:39-49 | capitalisation of a prefix depends on that prefix only |
| Extensions.RemoveSeparatorsAt | OpenApiToCS/Generator/Extensions.cs:39-50 | the k-th output character is the input character at the k-th kept position |
| Extensions.KeptIndicesSameSeparators | OpenApiToCS/Generator/Extensions.cs:42 | strings with separators at the same positions keep the same positions |
| Extensions.CapitalizedSeparators | OpenApiToCS/Generator/Extensions.cs:47 | capitalising never creates or removes a separator |
| Extensions.PascalizeCharacterisation | OpenApiToCS/Generator/Extensions.cs:34-50 | the output is the input without ' ', '_', '-', order kept, length at most the input's; a kept character is upper-cased exactly when it is lower-case and first or right after a separator, and is otherwise unchanged |
| Extensions.PascalizeHasNoSeparators | OpenApiToCS/Generator/Extensions.cs:42-46 | the output holds no separator |
| Extensions.KeptIndicesAllSeparators | OpenApiToCS/Generator/Extensions.cs:42-46 | an all-separator input keeps no position |
| Extensions.PascalizeAllSeparators | OpenApiToCS/Generator/Extensions.cs:34-50 | an all-separator input yields "" and no error |
| Extensions.KeptIndicesWithoutSeparators | OpenApiToCS/Generator/Extensions.cs:39-49 | without separators every position is kept |
| Extensions.PascalizeWithoutSeparators | OpenApiToCS/Generator/Extensions.cs:36-49 | without separators only the first character can change, and the length is kept |
| Extensions.RemoveSeparatorsConcat | OpenApiToCS/Generator/Extensions.cs:42-46 | removing separators distributes over concatenation |
| Extensions.PascalizeAtSeparator | OpenApiToCS/Generator/Extensions.cs:42-48 | a separator splits the input into two independently Pascal-cased parts |
| Extensions.CapitalizedAtSeparator | OpenApiToCS/Generator/Extensions.cs:42-48 | after a separator the capitalize flag is set again, so each side of it is capitalized as if on its own |
| Extensions.PascalizeStep | OpenApiToCS/Generator/Extensions.cs:39-49 | one more input character adds nothing when it is a separator and otherwise itself, upper-cased when it is a lower-case letter starting a word |
| Extensions.ManualPascalize | OpenApiToCS/Generator/Extensions.cs:32-51 | the buffer loop with `j` and `capitalize` returns the reference Pascal-casing of its input |
| Extensions.TitleCase | OpenApiToCS/Generator/Extensions.cs:10-30 | null throws `ArgumentNullException`, "" throws `ArgumentException`, any other input yields its Pascal-casing |
| Extensions.TitleCaseCache.constructor | OpenApiToCS/Generator/Extensions.cs:8 | the cache starts empty and valid |
| Extensions.TitleCaseCache.ToTitleCase | OpenApiToCS/Generator/Extensions.cs:10-30 | the cached result equals the uncached one; a success stores it under its input; every cached entry stays the Pascal-casing of its key |
| Extensions.FirstCharToLower | OpenApiToCS/Generator/Extensions.cs:53-65 | null and "" throw; otherwise the length is kept, index 0 is lower-cased and indices 1.. are unchanged |
| Extensions.PascalizeWord | OpenApiToCS/Generator/Extensions.cs:36-49 | a word without separators gets its first letter upper-cased |
| Extensions.TitleCaseWordExamples | OpenApiToCS.Tests/ExtensionsTests.cs:8-20 | "test", "Test", "testCase" and "t" give "Test", "Test", "TestCase" and "T" |
| Extensions.TitleCaseSeparatorExamples | OpenApiToCS.Tests/ExtensionsTests.cs:10-12 | "test_case", "test-case" and "test case" give "TestCase" |
| Extensions.TitleCaseThreeWordExample | OpenApiToCS.Tests/ExtensionsTests.cs:16 | "test_case_example" gives "TestCaseExample" |
| Extensions.FirstCharToLowerExamples | OpenApiToCS.Tests/ExtensionsTests.cs:35-43 | "Test", "T", "TestCase" and "Testcase" give "test", "t", "testCase" and "testcase" |
| BaseGenerator.ReplaceNewlines | OpenApiToCS/Generator/BaseGenerator.cs:16 | `Replace("\n", " ")` keeps the length and turns exactly the line breaks into spaces |
| BaseGenerator.TextBuilder.constructor | OpenApiToCS/Generator/BaseGenerator.cs:10 | a builder holding the given lines |
| BaseGenerator.TextBuilder.AppendLine | OpenApiToCS/Generator/BaseGenerator.cs:15-17 | `AppendLine` adds one line at the end |
| BaseGenerator.GenerateSummary | OpenApiToCS/Generator/BaseGenerator.cs:10-20 | the builder gains exactly the summary's lines |
| BaseGenerator.SummaryLinesShape | OpenApiToCS/Generator/BaseGenerator.cs:12-17 | nothing is appended iff the summary is null or empty; otherwise three lines, with the summary on the middle line and every '\n' a space |
| BaseGenerator.LastIndexOf | OpenApiToCS/Generator/BaseGenerator.cs:34-38 | `LastIndexOf`: -1 or the last position holding the character |
| BaseGenerator.LastIndexBefore | OpenApiToCS/Generator/OperationGenerator.cs:340 | `LastIndexOf(c, start)`: the last position before the bound holding the character, or -1 |
| BaseGenerator.Sanitize | OpenApiToCS/Generator/BaseGenerator.cs:43-49 | sanitising keeps the length |
| BaseGenerator.NameStart | OpenApiToCS/Generator/BaseGenerator.cs:33-40 | the name starts after the last '/' or '.', and no '/' or '.' follows |
| BaseGenerator.NameStartUnique | OpenApiToCS/Generator/BaseGenerator.cs:33-40 | that start is the only position with these properties |
| BaseGenerator.ClassNameCharacterisation | OpenApiToCS/Generator/BaseGenerator.cs:25-53 | null or "" gives "object"; otherwise the name is the longest suffix without '/' or '.', pointwise sanitised ('-', '{', '}', ' ' become '_'), and holds no '/' and no invalid character |
| BaseGenerator.AfterLastSuffix | OpenApiToCS/Generator/BaseGenerator.cs:35-36 | cutting after the last occurrence of a character leaves the longest suffix without it |
| BaseGenerator.CutTwiceIsNameStart | OpenApiToCS/Generator/BaseGenerator.cs:33-40 | cutting after the last '/' and then after the last '.' starts the name where `NameStart` says |
| BaseGenerator.ClassNameExamples | OpenApiToCS.Tests/BaseGeneratorTests.cs:12-20 | "MyClass" is kept; null and "" give "object" |
| BaseGenerator.ClassNameQualifiedExamples | OpenApiToCS.Tests/BaseGeneratorTests.cs:13 | "components/schemas/MyClass" gives "MyClass" |
| BaseGenerator.ClassNameDottedExamples | OpenApiToCS.Tests/BaseGeneratorTests.cs:14 | "components.schemas.MyClass" gives "MyClass" |
| BaseGenerator.ClassNameSanitizeExamples | OpenApiToCS.Tests/BaseGeneratorTests.cs:15-18 | "my-class" and "my class" give "my_class", and "my{class}" gives "my_class_" |
| BaseGenerator.ClassNameKeptExamples | OpenApiToCS.Tests/BaseGeneratorTests.cs:15-16 | "my.class" gives "class", and "my_class" is kept |
| BaseGenerator.ClassNameCache.constructor | OpenApiToCS/Generator/BaseGenerator.cs:22 | the cache starts empty and valid |
| BaseGenerator.ClassNameCache.GetClassNameFromKey | OpenApiToCS/Generator/BaseGenerator.cs:25-53 | the cached lookup returns the uncached name; a non-empty key is stored with its name; the same key always yields the same name |
| BaseGenerator.ExtractClassName | OpenApiToCS/Generator/BaseGenerator.cs:33-49 | the span cuts and the buffer loop with counter `j` compute the reference class name |
| BaseGenerator.SanitizeSpan | OpenApiToCS/Generator/BaseGenerator.cs:43-49 | the buffer loop replaces each of `-`, `.`, `{`, `}` and space by `_` and keeps every other character, position by position |
| BaseGenerator.ScalarTypeSupported | OpenApiToCS/Generator/BaseGenerator.cs:63-77 | a scalar is named exactly for the listed (type, format) pairs; boolean ignores the format; a missing format gives int, float and string |
| BaseGenerator.Innermost | OpenApiToCS/Generator/BaseGenerator.cs:78-80 | the innermost element of nested arrays is not an array with items |
| BaseGenerator.TypeNameOfNestedArray | OpenApiToCS/Generator/BaseGenerator.cs:78-80 | an array type is its innermost element's type followed by one "[]" per level; it fails exactly when that element fails, with the same error |
| BaseGenerator.BracketsAppend | OpenApiToCS/Generator/BaseGenerator.cs:79 | one more level adds one "[]" |
| BaseGenerator.TypeNameFailure | OpenApiToCS/Generator/BaseGenerator.cs:55-83 | `GetTypeFromKey` throws iff the innermost element has no reference and has a type other than object, array or a supported scalar; the error is `NotImplemented` of that type; a reference always wins |
| BaseGenerator.TypeNameExamples | OpenApiToCS.Tests/BaseGeneratorTests.cs:30-35 | integer without format gives int, int64 gives long, and number/double gives double |
| BaseGenerator.TypeNameStringExamples | OpenApiToCS.Tests/BaseGeneratorTests.cs:38-42 | string/date-time gives DateTimeOffset and string/binary gives byte[] |
| BaseGenerator.TypeNameArrayExamples | OpenApiToCS.Tests/BaseGeneratorTests.cs:44-79 | array without items gives object[], an array of strings gives string[], a missing type gives object, and "unknown" fails |
| BaseGenerator.TypeNameReferenceExample | OpenApiToCS.Tests/BaseGeneratorTests.cs:81-89 | "#/components/schemas/RefType" gives "RefType" |
| Dictionaries.Lookup | OpenApiToCS/Generator/DataClassGenerator.cs:323 | a lookup finds a value iff the key is present, and the value is stored under that key |
| Dictionaries.Add | OpenApiToCS/Generator/DataClassGenerator.cs:44 | `Dictionary.Add` throws exactly on a present key; otherwise it appends the entry and keeps the keys distinct |
| Dictionaries.Set | OpenApiToCS/Generator/DataClassGenerator.cs:349 | the indexer replaces in place a present key's value, and otherwise appends the entry |
| Dictionaries.SetLookup | OpenApiToCS/Generator/DataClassGenerator.cs:349 | after a `Set` the key maps to the new value and every other key is unchanged |
| Models.ClassCountAndConverters | OpenApiToCS/Generator/Models/DataClassGenerationResult.cs:6-7 | `|Converters| == ClassCount - |Classes|`; `ClassCount >= |Classes|`, with equality iff no class has converters |
| Models.ConvertersOfAppend | OpenApiToCS/Generator/Models/DataClassGenerationResult.cs:6-7 | converters are listed class by class in insertion order, and counts add up |
| Models.AddClassCount | OpenApiToCS/Generator/Models/DataClassGenerationResult.cs:6-7 | adding a class adds 1 plus its converters to `ClassCount` and appends its converters to `Converters` |
| DataClassRules.GenerateEnum | OpenApiToCS/Generator/DataClassGenerator.cs:73-90 | an enum class has the class's name and namespace, no properties and no converters, and has the schema's values as members in declared order |
| DataClassRules.QueueWeightAppend | OpenApiToCS/Generator/DataClassGenerator.cs:58 | queue weight adds over concatenation |
| DataClassRules.GrowsByChain | OpenApiToCS/Generator/DataClassGenerator.cs:187-201 | growth bounds of successive enqueues add up |
| DataClassRules.GrowsByNothing | OpenApiToCS/Generator/DataClassGenerator.cs:149-205 | no enqueue grows the queue by nothing |
| DataClassRules.GrowsByOne | OpenApiToCS/Generator/DataClassGenerator.cs:187 | one `Enqueue` grows the queue by that entry's weight |
| DataClassRules.PropertyGrowth | OpenApiToCS/Generator/DataClassGenerator.cs:187-202 | a property queues at most its inline object and its object items, each a strict sub-schema |
| DataClassRules.RecordGrowth | OpenApiToCS/Generator/DataClassGenerator.cs:92-147 | a record of `s` queues less than the weight of `s`; its failures are naming or type errors only |
| DataClassRules.EntryGrowth | OpenApiToCS/Generator/DataClassGenerator.cs:129-142 | one property entry, with its oneOf converter, queues at most the entry's potential |
| DataClassRules.PropsGrowth | OpenApiToCS/Generator/DataClassGenerator.cs:127-143 | the property loop queues at most the remaining entries' potential |
| DataClassRules.OneOfGrowth | OpenApiToCS/Generator/DataClassGenerator.cs:207-239 | `GenerateOneOf` queues at most its variants' potential |
| DataClassRules.VariantsGrowth | OpenApiToCS/Generator/DataClassGenerator.cs:228-234 | the variant loop queues at most the remaining variants' potential |
| DataClassRules.PropertyForFacts | OpenApiToCS/Generator/DataClassGenerator.cs:149-205 | a property fails iff its key is empty or `GetTypeFromKey` rejects its scalar type; otherwise its name is never the class name, it is `Title(key)` with "Property" appended exactly on a clash, its JSON name is the key, `IsRequired` holds iff the key is in `Required`, and nullable, deprecated and description are copied from the schema |
| DataClassRules.PropertyTypeCases | OpenApiToCS/Generator/DataClassGenerator.cs:164-194 | array-of-oneOf gives `Title(key)+"OneOf[]"`; another non-object type gives `GetTypeFromKey`; a reference gives its class name; a missing type gives "object"; an inline object is queued under its key at the queue's end and is typed by its title |
| DataClassRules.RecordProperties | OpenApiToCS/Generator/DataClassGenerator.cs:92-147 | a record carries its name, namespace and base class, and one property per schema entry, in order |
| DataClassRules.PropsLoopProperties | OpenApiToCS/Generator/DataClassGenerator.cs:129-142 | the property loop yields exactly the properties of the entries, one-to-one and in order |
| DataClassRules.BaseRecordOfEmptySchema | OpenApiToCS/Generator/DataClassGenerator.cs:223 | a record of `new OpenApiSchema()` is the zero-property base record and queues nothing |
| DataClassRules.OneOfShape | OpenApiToCS/Generator/DataClassGenerator.cs:207-244 | null iff the base `Title(owner)+"OneOf"` is registered; otherwise 1+N classes, with the empty base first and then, in declared order, the variants `ClassName(owner)+ClassName(title)` deriving from the base; the converter is named base+"ConverterJson" |
| DataClassRules.VariantsShape | OpenApiToCS/Generator/DataClassGenerator.cs:228-234 | the variant loop names each variant from the owner and the variant's title and derives it from the base |
| DataClassRules.UnsupportedCharacterisation | OpenApiToCS/Generator/DataClassGenerator.cs:18-27 | a top-level schema is skipped iff its type is not object, string or array, or it is an array without items and enum |
| DataClassRules.ExtendsTransitive | OpenApiToCS/Generator/DataClassGenerator.cs:34-44 | the result only gaining entries at its end and the registry only growing compose |
| DataClassRules.RegisterAndAdd | OpenApiToCS/Generator/DataClassGenerator.cs:34-55 | adding the class of a name just registered never throws, and it keeps registry and result consistent |
| DataClassRules.TopLevelStepConsistent | OpenApiToCS/Generator/DataClassGenerator.cs:16-56 | a top-level step never throws `DuplicateKey`, keeps consistency and only extends the state; an already registered name leaves the state unchanged |
| DataClassRules.TopLevelLoopConsistent | OpenApiToCS/Generator/DataClassGenerator.cs:16-56 | the same for the whole top-level pass |
| DataClassRules.DrainConsistent | OpenApiToCS/Generator/DataClassGenerator.cs:58-68 | the drain never throws `DuplicateKey`, keeps consistency, only extends the state and ends with an empty queue |
| DataClassRules.GenerateConsistent | OpenApiToCS/Generator/DataClassGenerator.cs:13-71 | `GenerateDataClasses` from a consistent state keeps result keys distinct and equal to the registry, only adds, and empties the queue |
| DataClassRules.FreshStateConsistent | OpenApiToCS/Generator/DataClassGenerator.cs:9-11 | a fresh generator is consistent |
| DataClasses.DataClassGenerator.constructor | OpenApiToCS/Generator/DataClassGenerator.cs:9-11 | empty queue, registry and result, which are consistent |
| DataClasses.DataClassGenerator.GenerateProperty | OpenApiToCS/Generator/DataClassGenerator.cs:149-205 | returns the rule's property and enqueues exactly its pushes; registry and result are unchanged |
| DataClasses.DataClassGenerator.GenerateRecord | OpenApiToCS/Generator/DataClassGenerator.cs:92-147 | returns the rule's record and leaves the queue as the rule says, or fails with the rule's error |
| DataClasses.DataClassGenerator.GenerateEntry | OpenApiToCS/Generator/DataClassGenerator.cs:129-141 | one property entry: the rule's property and converter, the queue as the rule leaves it, or the rule's error; registry and result are unchanged |
| DataClasses.DataClassGenerator.GenerateOneOf | OpenApiToCS/Generator/DataClassGenerator.cs:207-239 | returns the rule's converter and leaves the queue as the rule says, or fails with the rule's error |
| DataClasses.DataClassGenerator.GenerateComponent | OpenApiToCS/Generator/DataClassGenerator.cs:18-55 | one iteration of the schema loop moves the state as the rule step says |
| DataClasses.DataClassGenerator.GenerateQueued | OpenApiToCS/Generator/DataClassGenerator.cs:58-68 | one dequeue lowers the queue weight and leaves the rest of the drain unchanged |
| DataClasses.DataClassGenerator.GenerateComponents | OpenApiToCS/Generator/DataClassGenerator.cs:16-56 | the loop over the component schemas reaches the state the rule loop gives, or fails with its error |
| DataClasses.DataClassGenerator.DrainQueue | OpenApiToCS/Generator/DataClassGenerator.cs:58-68 | emptying the queue reaches the state the rule drain gives, or fails with its error |
| DataClasses.DataClassGenerator.GenerateDataClasses | OpenApiToCS/Generator/DataClassGenerator.cs:13-71 | returns `_result` in the state the rules give; from a consistent state it never throws `DuplicateKey` and succeeds consistent, extended and with an empty queue |
| OneOfDecoding.Names | OpenApiToCS/Generator/DataClassGenerator.cs:269-272 | `_propertiesFor{class}` holds one C# name per property |
| OneOfDecoding.JsonNames | OpenApiToCS/Generator/DataClassGenerator.cs:326 | one `JsonPropertyName` per property |
| OneOfDecoding.FindFirst | OpenApiToCS/Generator/DataClassGenerator.cs:326 | `FirstOrDefault`: the first matching position, or none |
| OneOfDecoding.ResolveIndex | OpenApiToCS/Generator/DataClassGenerator.cs:323-328 | a key resolves iff it is a C# name or a JSON name; a C# name resolves to a property of that name, otherwise to the first property with that JSON name |
| OneOfDecoding.ResolveKey | OpenApiToCS/Generator/DataClassGenerator.cs:323-328 | a key resolves iff it is a C# name or a JSON name; a C# name resolves to itself; the result is a C# name |
| OneOfDecoding.Assignable | OpenApiToCS/Generator/DataClassGenerator.cs:323-330 | an assignable entry's key resolves |
| OneOfDecoding.AssignmentError | OpenApiToCS/Generator/DataClassGenerator.cs:327-330 | an unresolved key throws `PropertyNotFound` of the key; a resolved one that `SetValue` rejects throws `ValueNotAssignable` of the resolved property |
| OneOfDecoding.Advance | OpenApiToCS/Generator/DataClassGenerator.cs:304-362 | a non-closing token keeps the chosen variant within the table |
| OneOfDecoding.Write | OpenApiToCS/Generator/DataClassGenerator.cs:371-374 | `Write` always throws |
| OneOfDecoding.MatchLoopValid | OpenApiToCS/Generator/DataClassGenerator.cs:278-291 | matching keeps the chosen variant within the table |
| OneOfDecoding.FirstVariantWith | OpenApiToCS/Generator/DataClassGenerator.cs:280-284 | the first variant that has the property, or none |
| OneOfDecoding.MatchAtTopLevel | OpenApiToCS/Generator/DataClassGenerator.cs:280-285 | at depth 0 a property selects the first variant that has it unless one is chosen (`??=`, first match wins), and nothing is stored |
| OneOfDecoding.MatchNested | OpenApiToCS/Generator/DataClassGenerator.cs:286-289 | deeper, the choice is unchanged; matching succeeds iff no variant has the name, or exactly one does and the name is not yet stored, and it then stores the name once; otherwise `Add` throws `DuplicateKey` |
| OneOfDecoding.ResolveLoopCharacterisation | OpenApiToCS/Generator/DataClassGenerator.cs:321-331 | assignment succeeds iff every stored entry resolves to a property whose type accepts its value; a failure is the error of the first entry that does not (`PropertyNotFound` or `SetValue`'s rejection); each success pairs keys with their resolved names and values in order |
| OneOfDecoding.ResolveLoopOutcome | OpenApiToCS/Generator/DataClassGenerator.cs:321-331 | assignment succeeds exactly when every stored entry resolves to a property that accepts its value, and otherwise fails with the error of the first entry that does not |
| OneOfDecoding.ResolveLoopShape | OpenApiToCS/Generator/DataClassGenerator.cs:321-331 | a successful assignment appends each stored value, in order, under the name its key resolves to |
| OneOfDecoding.AssignableTarget | OpenApiToCS/Generator/DataClassGenerator.cs:323-330 | an assignable entry targets a property of its resolved name whose declared type accepts the value |
| OneOfDecoding.ResolvedNamesAreProperties | OpenApiToCS/Generator/DataClassGenerator.cs:321-331 | every assignment targets a property of the variant, carries the stored value, and sets a property whose declared type accepts it |
| OneOfDecoding.NoEndNoResult | OpenApiToCS/Generator/DataClassGenerator.cs:302-368 | a stream without a closing token never decodes |
| OneOfDecoding.NoMatchUndetermined | OpenApiToCS/Generator/DataClassGenerator.cs:313-368 | if no name in the stream belongs to any variant, the read throws (`OneOfUndetermined` or incomplete input) |
| OneOfDecoding.NoVariantNoMatch | OpenApiToCS/Generator/DataClassGenerator.cs:280 | a name of no variant changes neither the choice nor the values |
| OneOfDecoding.ReadResultIsVariant | OpenApiToCS/Generator/DataClassGenerator.cs:313-333 | a successful read returns one of the variants, with assignments to its properties, each of a value the property's type accepts |
| OneOfDecoding.MatchLoopKeys | OpenApiToCS/Generator/DataClassGenerator.cs:288 | matching stores only the matched name |
| OneOfDecoding.SetKeys | OpenApiToCS/Generator/DataClassGenerator.cs:349-361 | a scalar is stored under the current name only |
| OneOfDecoding.RunKeys | OpenApiToCS/Generator/DataClassGenerator.cs:302-366 | the loop stores values only under names of the stream, the current one or names already stored |
| OneOfDecoding.DecodeUsesOnlyItsOwnTokens | OpenApiToCS/Generator/DataClassGenerator.cs:262-369 | a read from no stored values assigns only values stored under its own stream's names, exactly those values and in order |
| OneOfDecoding.CarriedValues | OpenApiToCS/Generator/DataClassGenerator.cs:321-331 | the assignments pair up with the values left stored |
| OneOfDecoding.ChoiceNames | OpenApiToCS/Generator/DataClassGenerator.cs:269-272 | the example tables' names |
| OneOfDecoding.RunOneProperty | OpenApiToCS/Generator/DataClassGenerator.cs:302-330 | a property name, one scalar and a closing token at depth 0 make the read loop end in the final assignment step on the state after both |
| OneOfDecoding.FirstReadExample | OpenApiToCS/Generator/DataClassGenerator.cs:297-333 | `{"A": "x"}` decodes as the first variant and leaves `A` stored |
| OneOfDecoding.SecondReadExample | OpenApiToCS/Generator/DataClassGenerator.cs:262-328 | `{"B": true}` read on those stored values throws `PropertyNotFound("A")` |
| OneOfDecoding.FreshReadExample | OpenApiToCS/Generator/DataClassGenerator.cs:297-333 | read from no stored values, `{"B": true}` decodes as the second variant |
| OneOfDecoding.StaleValuesExample | OpenApiToCS/Generator/DataClassGenerator.cs:262 | the three reads above, on one converter, side by side |
| OneOfDecoding.NumbersFitOnlyDouble | OpenApiToCS/Generator/BaseGenerator.cs:66-69 | a number the converter stores is a `double` (`DataClassGenerator.cs:352`): no `integer` property type accepts it, and a `number` property type accepts it exactly for format `double` |
| OneOfDecoding.IntPropertyExample | OpenApiToCS/Generator/DataClassGenerator.cs:297-352 | `{"N": 1}` chooses the variant whose `int` property is `N`, and the read throws when the `double` is set on it |
| OneOfDecoding.AsWrittenCoherentOnlyForOneBase | OpenApiToCS/Generator/DataClassGenerator.cs:349-371 | the emitted identifiers agree iff the base is `BeskeddataOneOf` |
| OneOfDecoding.AsWrittenIncoherentExample | OpenApiToCS/Generator/DataClassGenerator.cs:349-371 | for base `ChoiceOneOf` they disagree |
| OneOfDecoding.IdentifiersCoherent | OpenApiToCS/Generator/DataClassGenerator.cs:244-262 | identifiers derived from the base agree for every base and match the emitted converter name and values field |
| OneOfDecoding.JsonOneOfConverter.constructor | OpenApiToCS/Generator/DataClassGenerator.cs:256-274 | the tables come from the converter's variants, and no values are stored yet |
| OneOfDecoding.JsonOneOfConverter.MatchProperty | OpenApiToCS/Generator/DataClassGenerator.cs:278-291 | the emitted `if` blocks do what the matching function says to the choice and to the stored values |
| OneOfDecoding.JsonOneOfConverter.AssignValues | OpenApiToCS/Generator/DataClassGenerator.cs:320-331 | the `foreach` over the stored values yields the resolved assignments, or the error of the first key that does not resolve or value that `SetValue` rejects |
| OneOfDecoding.JsonOneOfConverter.Step | OpenApiToCS/Generator/DataClassGenerator.cs:304-362 | one `switch` case moves the locals and the values as `Advance` says |
| OneOfDecoding.JsonOneOfConverter.Read | OpenApiToCS/Generator/DataClassGenerator.cs:297-369 | the `while (reader.Read())` loop on the instance's values returns the decoded variant and leaves the values as the reference read does, including stale ones |
| OneOfDecoding.JsonOneOfConverter.ReadFresh | OpenApiToCS/Generator/DataClassGenerator.cs:297-369 | a read that first clears the values yields the reference decode |
| Operations.Spaced | OpenApiToCS/Generator/OperationGenerator.cs:358-368 | keeps the length and turns exactly '{', '}', '.', '-' into spaces |
| Operations.TrimStartIndex | OpenApiToCS/Generator/OperationGenerator.cs:369 | the first non-white-space position |
| Operations.TrimEndIndex | OpenApiToCS/Generator/OperationGenerator.cs:369 | the position after the last non-white-space character |
| Operations.Trim | OpenApiToCS/Generator/OperationGenerator.cs:369 | `Trim` returns the infix between leading and trailing white space, neither end of which is white space |
| Operations.MethodNameShape | OpenApiToCS/Generator/OperationGenerator.cs:334-370 | null and "" give "object"; every name holds no separator and neither starts nor ends with white space |
| Operations.SpacedTrimmedShape | OpenApiToCS/Generator/OperationGenerator.cs:358-370 | once separators are spaces and the text is trimmed, no separator character is left |
| Operations.SlashAt | OpenApiToCS/Generator/OperationGenerator.cs:339 | the last '/' of `x/b` without '/' in `b` is at `|x|` |
| Operations.SlashBefore | OpenApiToCS/Generator/OperationGenerator.cs:340 | the previous '/' is found before the last one |
| Operations.MethodNameOfSegments | OpenApiToCS/Generator/OperationGenerator.cs:339-369 | for `x/a/b`: when `x` is non-empty and `a` has no '{', the name is "a b" with each part cut after its last '.'; otherwise it is `b`; the result is then spaced and trimmed |
| Operations.MethodNameOfOneSegment | OpenApiToCS/Generator/OperationGenerator.cs:352-356 | with a single '/', the name is the last segment, spaced and trimmed |
| Operations.MethodNameWithoutSlash | OpenApiToCS/Generator/OperationGenerator.cs:354 | without '/', the whole key, spaced and trimmed |
| Operations.PlainName | OpenApiToCS/Generator/OperationGenerator.cs:358-369 | a name without separators or surrounding white space is unchanged |
| Operations.PlainLastSegment | OpenApiToCS/Generator/OperationGenerator.cs:343-356 | a plain last segment is the name when the previous segment has a '{' or starts the path |
| Operations.SpacedParameter | OpenApiToCS/Generator/OperationGenerator.cs:365 | "{gameCode}" gives "gameCode" |
| Operations.MethodNameOfPathParameter | OpenApiToCS.Tests/OperationGeneratorKlJsonTests.cs:33 | "/Game/{gameCode}" gives "gameCode" |
| Operations.MethodNameAfterPathParameter | OpenApiToCS.Tests/OperationGeneratorKlJsonTests.cs:34 | "/Game/{gameCode}/start" gives "start" |
| Operations.MethodNameOfTwoSegments | OpenApiToCS.Tests/OperationGeneratorKlJsonTests.cs:35 | "/users/get" gives "get" |
| Operations.PairOfSegments | OpenApiToCS/Generator/OperationGenerator.cs:343-350 | the two-segment branch joins the cut segments with a space |
| Operations.AfterLastSplit | OpenApiToCS/Generator/OperationGenerator.cs:348-349 | cutting after the last '.' leaves what follows it |
| Operations.DottedParts | OpenApiToCS/Generator/OperationGenerator.cs:348-350 | "v1.users" and "list.all" give "users all" |
| Operations.MethodNameOfDottedSegments | OpenApiToCS/Generator/OperationGenerator.cs:343-369 | "/api/v1.users/list.all" gives "users all" |
| Operations.IndexOf | OpenApiToCS/Generator/OperationGenerator.cs:18 | -1 or the first position holding the character |
| Operations.FirstSegment | OpenApiToCS/Generator/OperationGenerator.cs:18 | `Split('/')[1]` throws `IndexOutOfRange` iff there is no '/'; otherwise it is a segment without '/' |
| Operations.FirstSegmentOf | OpenApiToCS/Generator/OperationGenerator.cs:18 | "a/b/..." has first segment `b` |
| Operations.Segments | OpenApiToCS/Generator/OperationGenerator.cs:17-18 | all segments exist iff every path has a '/'; each is that path's first segment |
| Operations.FirstOccurrencesProperties | OpenApiToCS/Generator/OperationGenerator.cs:17-19 | `GroupBy` keys extend the keys found so far, are distinct, cover every later segment and come only from later segments |
| Operations.PathsWithProperties | OpenApiToCS/Generator/OperationGenerator.cs:17-19 | a group holds only paths of its key and every path of its key, and is non-empty when the key occurs |
| Operations.FirstPosition | OpenApiToCS/Generator/OperationGenerator.cs:17-19 | the position where a segment first occurs |
| Operations.FirstOccurrencesOrder | OpenApiToCS/Generator/OperationGenerator.cs:17-19 | `GroupBy` keys occur among the segments and are ordered by their first occurrence |
| Operations.FreshOccurrenceStep | OpenApiToCS/Generator/OperationGenerator.cs:17-19 | a segment not among the keys found so far occurs at the current position first and follows every earlier key |
| Operations.KeyIndices | OpenApiToCS/Generator/OperationGenerator.cs:17-19 | the positions of one segment, ascending and complete |
| Operations.PathsWithOrder | OpenApiToCS/Generator/OperationGenerator.cs:17-19 | a group lists exactly the paths at its key's positions, in ascending (document) order |
| Operations.PathsWithFrom | OpenApiToCS/Generator/OperationGenerator.cs:17-19 | the group of a key over the paths from `i` on takes path `i` when its segment is the key, then the group over the rest |
| Operations.GroupByOrder | OpenApiToCS/Generator/OperationGenerator.cs:17-19 | groups come in order of their key's first occurrence, and each lists exactly its key's paths in document order |
| Operations.PathsWithOrigin | OpenApiToCS/Generator/OperationGenerator.cs:17-19 | every member of a group is a path whose first segment is the group key |
| Operations.PathsWithComplete | OpenApiToCS/Generator/OperationGenerator.cs:17-19 | every path whose first segment is the key belongs to that key's group |
| Operations.GroupKeys | OpenApiToCS/Generator/OperationGenerator.cs:17-19 | the group keys are distinct and cover every path's segment |
| Operations.GroupByProperties | OpenApiToCS/Generator/OperationGenerator.cs:17-19 | grouping fails iff some path has no '/', with `IndexOutOfRange`; otherwise the keys are distinct, groups are non-empty, each member has its group's segment, and every path lies in its segment's group |
| Operations.GroupsHoldTheirPaths | OpenApiToCS/Generator/OperationGenerator.cs:17-19 | no group is empty and every path in a group has the group's segment as its first segment |
| Operations.GroupsCoverPaths | OpenApiToCS/Generator/OperationGenerator.cs:17-19 | every path lies in the group of its own first segment |
| Operations.GroupMembers | OpenApiToCS/Generator/OperationGenerator.cs:17-19 | a key's group is non-empty and holds paths of that key only |
| Operations.VerbRank | OpenApiToCS/Generator/OperationGenerator.cs:41-77 | each verb has its place in the fixed order Get, Post, Put, Delete, Patch, Head, Options, Trace |
| Operations.FirstInRange | OpenApiToCS/Generator/OperationGenerator.cs:106-107 | `FirstOrDefault` on a status range: none iff no response is in range, otherwise the first one in range |
| Operations.ReturnDecision | OpenApiToCS/Generator/OperationGenerator.cs:117-149 | no return type iff there is no 200 response or its content is null or empty; it fails only with `GetTypeFromKey`'s error on the first 200 schema; otherwise it is that schema's type, nullable iff the first 201-299 key is 201, 202 or 204 or the schema is nullable |
| Operations.SignatureParameters | OpenApiToCS/Generator/OperationGenerator.cs:156-182 | the parameters in the signature are exactly the path, query and header ones other than the `api-version` header |
| Operations.Typed | OpenApiToCS/Generator/OperationGenerator.cs:172-176 | typing succeeds iff every schema has a type name, and pairs each parameter with it |
| Operations.SignatureStep | OpenApiToCS/Generator/OperationGenerator.cs:156-183 | one parameter step of the loop |
| Operations.ExtendCons | OpenApiToCS/Generator/OperationGenerator.cs:170-177 | one parameter is typed and added to the required or optional list |
| Operations.ParameterLoopFrom | OpenApiToCS/Generator/OperationGenerator.cs:154-184 | the loop equals typing the signature parameters and partitioning them |
| Operations.ParameterLoopPlan | OpenApiToCS/Generator/OperationGenerator.cs:154-184 | the loop from the start gives the planned lists |
| Operations.ArgumentsContents | OpenApiToCS/Generator/OperationGenerator.cs:170-177 | the required list holds exactly the required parameters and the optional list the others; their lengths add up |
| Operations.SignatureTyped | OpenApiToCS/Generator/OperationGenerator.cs:172-176 | the signature is typed iff each signature parameter's schema has a type name |
| Operations.HeaderDeclared | OpenApiToCS/Generator/OperationGenerator.cs:158-161 | the `api-version` flag is set iff some parameter is that header |
| Operations.PlannedParametersOutcome | OpenApiToCS/Generator/OperationGenerator.cs:151-184 | planning succeeds iff every signature parameter is typed, and otherwise fails with one of their errors; the two lists together are as long as the signature; the flag holds iff the header is declared |
| Operations.TypedArguments | OpenApiToCS/Generator/OperationGenerator.cs:170-177 | an argument is required (optional) iff it is a required (optional) typed parameter |
| Operations.SignatureArguments | OpenApiToCS/Generator/OperationGenerator.cs:165-177 | the same in terms of the original parameter list |
| Operations.PlannedArguments | OpenApiToCS/Generator/OperationGenerator.cs:151-184 | `T name` is in the required list iff a required signature parameter has that name and type, and `T? name = null` likewise for the optional list |
| Operations.QueryParts | OpenApiToCS/Generator/OperationGenerator.cs:229-247 | no query part iff no parameter is in the query |
| Operations.LedCons | OpenApiToCS/Generator/OperationGenerator.cs:236 | the first part follows its lead and the rest follow '&' |
| Operations.QueryPartsCons | OpenApiToCS/Generator/OperationGenerator.cs:233-245 | one parameter of the query loop |
| Operations.QueryLoopFrom | OpenApiToCS/Generator/OperationGenerator.cs:227-247 | the `isFirst` loop appends the query parts, the first after '?' and the rest after '&' |
| Operations.QueryLoopJoins | OpenApiToCS/Generator/OperationGenerator.cs:227-247 | the URL is the path followed by the query string; the query string is empty iff no parameter is in the query |
| Operations.BodyParameter | OpenApiToCS/Generator/OperationGenerator.cs:186-206 | no body without content; a reference body is `Title(class)` named `FirstCharToLower` of it; a typed body is `Title(ClassName(type))` named `FirstCharToLower(methodName)`; otherwise none |
| Operations.NoSuccessStatus | OpenApiToCS/Generator/OperationGenerator.cs:106-109 | neither a 200 nor a 201-299 response iff no status is in 200-299 |
| Operations.OperationSkipped | OpenApiToCS/Generator/OperationGenerator.cs:90-113 | after the method-name title, an operation is skipped iff it has no response in 200-299 |
| Operations.MethodPlanProperties | OpenApiToCS/Generator/OperationGenerator.cs:115-247 | the plan fails with the return type's, then the parameters', then the body's error; on success its name is verb + method name, `parameters` is the required list followed by the body, and the URL is the path with its query string |
| Operations.CollectParameters | OpenApiToCS/Generator/OperationGenerator.cs:151-184 | the `foreach` filling `parameters`, `optionalParameters` and the header flag plans the parameters |
| Operations.BuildQueryString | OpenApiToCS/Generator/OperationGenerator.cs:227-247 | the `isFirst` loop builds the path followed by the query string |
| Operations.PlanMethod | OpenApiToCS/Generator/OperationGenerator.cs:115-247 | the imperative plan of a non-skipped operation equals the reference plan |
| Operations.GenerateOperationCode | OpenApiToCS/Generator/OperationGenerator.cs:88-247 | `GenerateOperationCode` yields the reference outcome: skipped, a method plan, or an error |
| Operations.RequiredDeclarations | OpenApiToCS/Generator/OperationGenerator.cs:172-200 | one `T name` per required argument, in order |
| Operations.OptionalDeclarations | OpenApiToCS/Generator/OperationGenerator.cs:176 | one `T? name = null` per optional argument, in order |
| Operations.TerminatedConcat | OpenApiToCS/Generator/OperationGenerator.cs:208-216 | appending each item with ", " distributes over concatenation |
| Operations.TerminatedJoin | OpenApiToCS/Generator/OperationGenerator.cs:208-222 | ", "-terminated items followed by a joined tail are one ", "-joined list |
| Operations.AppendEach | OpenApiToCS/Generator/OperationGenerator.cs:208-216 | each `foreach` appends every item followed by ", " |
| Operations.TailJoin | OpenApiToCS/Generator/OperationGenerator.cs:218-222 | the fixed tail is `configureRequest`, then `allowNullOrEmptyResponse` with a return type, then `jsonSerializerOptions` with a return type or a body, comma-separated |
| Operations.TailText | OpenApiToCS/Generator/OperationGenerator.cs:218-222 | the conditional appends produce that tail |
| Operations.ParameterListText | OpenApiToCS/Generator/OperationGenerator.cs:208-223 | the signature text is the required, optional and fixed declarations joined by ", " |
| Operations.Outcomes | OpenApiToCS/Generator/OperationGenerator.cs:41-77 | one outcome per verb, in the fixed order |
| Operations.OutcomesRanked | OpenApiToCS/Generator/OperationGenerator.cs:41-77 | each verb's method carries that verb |
| Operations.MethodsOutcome | OpenApiToCS/Generator/OperationGenerator.cs:39-78 | the path's methods succeed iff no verb fails, and otherwise fail with the first failing verb's error |
| Operations.MethodsOrigin | OpenApiToCS/Generator/OperationGenerator.cs:39-78 | the methods extend the earlier ones, and each new one is what its verb yields |
| Operations.MethodsOrder | OpenApiToCS/Generator/OperationGenerator.cs:41-77 | new methods are in strictly increasing verb order |
| Operations.MethodsComplete | OpenApiToCS/Generator/OperationGenerator.cs:41-77 | every verb that yields a method has one among them |
| Operations.PathMethodsProperties | OpenApiToCS/Generator/OperationGenerator.cs:39-78 | a path succeeds iff no operation fails, with an operation's error otherwise; new methods follow the earlier ones in the fixed verb order, each is what its operation yields, and every operation that is not skipped yields one |
| Operations.EmitOperation | OpenApiToCS/Generator/OperationGenerator.cs:41-77 | one `if (path.Value.<Verb> is not null)` statement is one step of the fold |
| Operations.GeneratePathOperations | OpenApiToCS/Generator/OperationGenerator.cs:39-78 | the eight statements produce the path's methods |
| Operations.SpecVerb | OpenApiToCS/Generator/OperationGenerator.cs:93-144 | a method carries its verb, and its name starts with the verb's name |
| Operations.MethodPlanNamed | OpenApiToCS/Generator/OperationGenerator.cs:93-144 | a planned method carries its verb, and its name is the verb's name followed by the method name |
| Operations.MethodsFromPrefix | OpenApiToCS/Generator/OperationGenerator.cs:39-78 | the methods already in the class do not affect the new ones |
| Operations.GroupMethodsJoin | OpenApiToCS/Generator/OperationGenerator.cs:39-78 | the loop over a group's paths is its earlier methods followed by the group's methods |
| Operations.GroupMethodsProperties | OpenApiToCS/Generator/OperationGenerator.cs:39-78 | a group succeeds iff every path does, and each method comes from one of its paths |
| Operations.TitleError | OpenApiToCS/Generator/Extensions.cs:16-17 | `ToTitleCase` on a string can only throw `ArgumentException` |
| Operations.ParameterError | OpenApiToCS/Generator/OperationGenerator.cs:172-176 | parameter planning fails only with a type-mapping error |
| Operations.SpecError | OpenApiToCS/Generator/OperationGenerator.cs:88-247 | an operation fails only with a naming or type-mapping error |
| Operations.MethodPlanError | OpenApiToCS/Generator/OperationGenerator.cs:115-247 | planning the return type, the parameters and the body fails only with a naming or type-mapping error |
| Operations.ReturnDecisionError | OpenApiToCS/Generator/OperationGenerator.cs:117-149 | choosing the return type fails only with a naming or type-mapping error |
| Operations.BodyParameterError | OpenApiToCS/Generator/OperationGenerator.cs:186-206 | deriving the body parameter fails only with a naming or type-mapping error |
| Operations.GroupMethodsError | OpenApiToCS/Generator/OperationGenerator.cs:39-78 | the same for a group |
| Operations.GenerateGroupMethods | OpenApiToCS/Generator/OperationGenerator.cs:39-78 | the `foreach` over a group's paths yields the group's methods |
| Operations.ApiNamespace | OpenApiToCS/Generator/OperationGenerator.cs:14-15 | an empty version throws `IndexOutOfRange` before the title is read; otherwise the namespace is `Title(ClassName(title))+"ApiClientV"+version[0]`, or it fails with the title's error |
| Operations.NamespacesAgree | OpenApiToCS/Generator/OperationGenerator.cs:15 | the models namespace is this namespace+".Models"; with an empty version the two generators fail differently |
| Operations.ClientName | OpenApiToCS/Generator/OperationGenerator.cs:25 | a client is named `Title(ClassName(segment))+"ClientV"+version[0]` and fails only when the title throws |
| Operations.GroupPlans | OpenApiToCS/Generator/OperationGenerator.cs:21-25 | one plan per group, with its client name and its methods |
| Operations.AddedKeys | OpenApiToCS/Generator/OperationGenerator.cs:82 | after adding, the keys are the old keys and the new one |
| Operations.ClassesLoopShape | OpenApiToCS/Generator/OperationGenerator.cs:21-83 | one class per group appended in order, under distinct keys |
| Operations.ClassesLoopOutcome | OpenApiToCS/Generator/OperationGenerator.cs:21-83 | the loop succeeds iff every name and method list succeeds and the names are new and pairwise distinct |
| Operations.PlansNamedErrors | OpenApiToCS/Generator/OperationGenerator.cs:25-78 | every plan fails only with a naming or type-mapping error |
| Operations.ClassesLoopErrors | OpenApiToCS/Generator/OperationGenerator.cs:21-83 | the loop fails with `DuplicateKey` or a naming or type-mapping error |
| Operations.ApiClassesIndexErrors | OpenApiToCS/Generator/OperationGenerator.cs:14-19 | an empty version throws `IndexOutOfRange`; then grouping fails iff some path has no '/' |
| Operations.ApiClassesShape | OpenApiToCS/Generator/OperationGenerator.cs:10-86 | on success there is one class per group, in group order, under distinct names; each is named by its segment and the version, lies in the namespace, and holds its group's methods |
| Operations.GroupClassAt | OpenApiToCS/Generator/OperationGenerator.cs:21-83 | the class of group `j` is keyed by its client name, holds the group's methods, lies in the namespace and serves the group's segment |
| Operations.LoopClassAt | OpenApiToCS/Generator/OperationGenerator.cs:21-83 | the loop started from an empty result yields one entry per plan, and entry `j` carries plan `j`'s client name, segment and methods |
| Operations.ApiClassesFailures | OpenApiToCS/Generator/OperationGenerator.cs:10-86 | a `DuplicateKey` failure is a client name two groups share; any other failure is `IndexOutOfRange` or a naming or type-mapping error |
| Operations.SharedClientName | OpenApiToCS/Generator/OperationGenerator.cs:82 | two groups with the same client name make `result.Add` throw |
| Operations.ClientNamesCollide | OpenApiToCS/Generator/OperationGenerator.cs:25-82 | segments "my-class" and "my_class" get the same client name |
| Operations.GenerateApiClasses | OpenApiToCS/Generator/OperationGenerator.cs:10-86 | `GenerateApiClasses` yields the reference classes or the reference error |

## Left out

- I/O is not modelled: console warnings, `Program.cs` (argument handling, file writing, timing) and the JSON deserialisation of the document. The document is an input value.
- The text layout of the generated files is not modelled: using directives, tabs, blank lines and the `[JsonPropertyName]`, `[Required]` and `[Obsolete]` lines. A class carries the facts its text is rendered from.
- `GenerateMetadata` is not modelled. It is switched off by `EmitMetadata = false`, and its comment dumps do not change any name or type.
- The emitted HTTP method bodies and `GenerateErrorHandling` are not modelled: sending the request, reading the response and handling `ProblemDetails`. Only the method's signature and URL are planned.
- The text of a method head (`public async Task<T>`, the name and the opening parenthesis, `OperationGenerator.cs:121-144`) is not modelled: the model keeps its parts, namely the return type with its nullability, the method name and the argument list. As written, line 139 puts no space between `Task<T>` and the method name, while `OperationGeneratorTests.cs:35` expects one; no member states either form.
- Enum values (`List<object>?` in the schema, each written with `ToString()` at `DataClassGenerator.cs:84-89`) are modelled as the strings they render to. The `ToString()` of a non-string value is not modelled.
- `DataClassGenerator.cs:175` calls a two-argument `GetTypeFromKey`. `BaseGenerator.cs:55` declares only the one-argument form, so the model uses that form.
- The constructors the tests call with a document do not exist in the generator files and are not modelled.
- `char.IsLower`, `ToUpperInvariant`, `ToLowerInvariant` and `Trim` are modelled on ASCII letters and ASCII white space only.
- Numbers read by the emitted converter are kept as their literal text. `GetDouble` and floating-point arithmetic are not modelled; a number is a `double` only for the type check of `SetValue`.
- Reflection in the emitted converter is modelled as given tables. Each variant has a table of its C# property names, their JSON names and their declared types, taken from the generated classes.
- The type check of `PropertyInfo.SetValue` is modelled on the declared type's name: a stored `string`, `double` or `bool` fits a property of exactly that type (nullable or not) or of type `object`, and `null` fits every property. Conversions that .NET reflection does not perform are not modelled either way.
- The emitted converter's static `_propertiesFor{class}` sets are computed once at construction. Their process-wide sharing is not modelled.
- The process-wide caches are modelled as maps with the invariant that every cached entry equals the uncached function. There is no concurrency to model.
- The state a generator is left in after an exception is not specified. The model only says that the call fails with that exception.
- `Operations.ApiNamespace`: the version's first character is read before the title, as in `OperationGenerator.cs:14-15`. `DataClassRules.ModelsNamespace` reads the title first, as in `DataClassGenerator.cs:15`. So with an empty version and an empty title the two generators throw different exceptions.
- The `NotSupportedException` of the HTTP-method switch is not modelled, because `Verb` has only the eight methods the generator passes.
- The `JsonTokenType` `default` arm is not modelled, because `Token` names every token type.
- The example lemmas write paths such as "/Game/{gameCode}" as concatenations of their segments. The proof is about the same string values.

## Findings

| source | as written | input that shows it | evidently intended | confidence | as-written member | corrected member |
|---|---|---|---|---|---|---|
| OpenApiToCS/Generator/DataClassGenerator.cs:262 | the emitted `_valuesFor{base}` dictionary is an instance field that no `Read` clears, so values of one read are assigned during the next | one converter for variants `ChoiceA(A)` and `ChoiceB(B)` reads `{"A": "x"}`, then `{"B": true}`: the second read tries to set `A` on a `ChoiceB` and throws | each read stores and assigns only its own values | not executed | OneOfDecoding.StaleValuesExample | OneOfDecoding.DecodeUsesOnlyItsOwnTokens |
| OpenApiToCS/Generator/DataClassGenerator.cs:349-371 | the scalar cases write `_valuesForBeskeddataOneOf`, and `Write` takes a `BeskeddataOneOf`, whatever the base record is | any base other than `BeskeddataOneOf`, for example `ChoiceOneOf`: the field written is not the one declared, and `Write` does not override `JsonConverter<ChoiceOneOf>.Write` | every identifier derived from the base record's name | not executed | OneOfDecoding.AsWrittenIncoherentExample | OneOfDecoding.IdentifiersCoherent |
