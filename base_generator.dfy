/** Generator/BaseGenerator.cs: the helpers both generators share — the XML
    summary block, the class name derived from a schema key (with its
    process-wide cache) and the C# type name of a schema. */
module BaseGenerator {
  import opened Wrappers
  import opened OpenApi

  // ---------------------------------------------------------------- summary

  /** `summary.Replace("\n", " ")`. */
  function ReplaceNewlines(s: string): (r: string)
    ensures |r| == |s|
    ensures forall i :: 0 <= i < |s| ==> r[i] == (if s[i] == '\n' then ' ' else s[i])
  {
    seq(|s|, i requires 0 <= i < |s| => if s[i] == '\n' then ' ' else s[i])
  }

  /** The lines `GenerateSummary` appends: none for a `null` or empty
      summary, otherwise the three lines of an XML `<summary>` element with
      the summary itself on the middle one. */
  function SummaryLines(summary: Option<string>): seq<string> {
    if summary.None? || summary.value == "" then []
    else ["\t/// <summary>", "\t/// " + ReplaceNewlines(summary.value), "\t/// </summary>"]
  }

  /** A `StringBuilder` written with `AppendLine` only: the lines appended
      so far, in order. */
  class TextBuilder {
    var lines: seq<string>

    constructor (initial: seq<string>)
      ensures lines == initial
    {
      lines := initial;
    }

    method AppendLine(line: string)
      modifies this
      ensures lines == old(lines) + [line]
    {
      lines := lines + [line];
    }
  }

  /** `GenerateSummary`: appends the summary lines to `sb` (and returns it). */
  method GenerateSummary(sb: TextBuilder, summary: Option<string>)
    modifies sb
    ensures sb.lines == old(sb.lines) + SummaryLines(summary)
  {
    if summary.None? || summary.value == "" {
      return;
    }
    sb.AppendLine("\t/// <summary>");
    sb.AppendLine("\t/// " + ReplaceNewlines(summary.value));
    sb.AppendLine("\t/// </summary>");
  }

  /** Nothing is appended exactly for a missing or empty summary; otherwise
      the opening tag line, the summary on one line with every line break
      turned into a space, and the closing tag line. */
  lemma SummaryLinesShape(summary: Option<string>)
    ensures SummaryLines(summary) == [] <==> summary.None? || summary.value == ""
    ensures summary.Some? && summary.value != "" ==>
      var ls := SummaryLines(summary);
      var middle := ls[1][5..];
      |ls| == 3 && ls[0] == "\t/// <summary>" && ls[2] == "\t/// </summary>" &&
      ls[1][..5] == "\t/// " &&
      |middle| == |summary.value| &&
      (forall i :: 0 <= i < |middle| ==> middle[i] == (if summary.value[i] == '\n' then ' ' else summary.value[i]) && middle[i] != '\n')
  {
  }

  // ------------------------------------------------------------- class name

  /** `span.LastIndexOf(c)`: the last position holding `c`, or -1. */
  function LastIndexOf(s: string, c: char): (r: int)
    ensures -1 <= r < |s|
    ensures r >= 0 ==> s[r] == c
    ensures forall i :: r < i < |s| ==> s[i] != c
  {
    LastIndexBefore(s, c, |s|)
  }

  /** The last position below `end` holding `c`, or -1. */
  function LastIndexBefore(s: string, c: char, end: nat): (r: int)
    requires end <= |s|
    ensures -1 <= r < end
    ensures r >= 0 ==> s[r] == c
    ensures forall i :: r < i < end ==> s[i] != c
  {
    if end == 0 then -1
    else if s[end - 1] == c then end - 1
    else LastIndexBefore(s, c, end - 1)
  }

  /** What follows the last `c` in `s` (all of `s` when it holds no `c`). */
  function AfterLast(s: string, c: char): string {
    s[LastIndexOf(s, c) + 1..]
  }

  predicate IsInvalidNameChar(c: char) {
    c == '-' || c == '.' || c == '{' || c == '}' || c == ' '
  }

  function SanitizeChar(c: char): char {
    if IsInvalidNameChar(c) then '_' else c
  }

  function Sanitize(s: string): (r: string)
    ensures |r| == |s|
  {
    seq(|s|, i requires 0 <= i < |s| => SanitizeChar(s[i]))
  }

  /** Where the class name begins in a key: just after its last '/' or '.'. */
  function NameStart(k: string): (n: nat)
    ensures n <= |k|
    ensures forall i :: n <= i < |k| ==> k[i] != '/' && k[i] != '.'
    ensures n == 0 || k[n - 1] == '/' || k[n - 1] == '.'
  {
    var slash := LastIndexOf(k, '/');
    var dot := LastIndexOf(k, '.');
    (if slash < dot then dot else slash) + 1
  }

  /** `GetClassNameFromKey` without its cache. */
  function ClassName(key: Option<string>): string {
    if key.None? || key.value == "" then "object"
    else Sanitize(key.value[NameStart(key.value)..])
  }

  /** The name begins at the one position after which no '/' or '.' follows
      and before which there is the start of the key, a '/' or a '.'. */
  lemma NameStartUnique(k: string, n: nat)
    requires n <= |k|
    requires forall i :: n <= i < |k| ==> k[i] != '/' && k[i] != '.'
    requires n == 0 || k[n - 1] == '/' || k[n - 1] == '.'
    ensures n == NameStart(k)
  {
  }

  /** A `null` or empty key names `object`. Any other key names the longest
      suffix of the key that holds neither '/' nor '.', with every '-', '{',
      '}' and ' ' in it replaced by '_'; so the name holds none of these
      characters, and it is empty when the key ends in '/' or '.'. */
  lemma ClassNameCharacterisation(key: Option<string>)
    ensures key.None? || key == Some("") ==> ClassName(key) == "object"
    ensures key.Some? && key.value != "" ==>
      var k := key.value;
      var r := ClassName(key);
      var n := |k| - |r|;
      0 <= n <= |k| &&
      (n == 0 || k[n - 1] == '/' || k[n - 1] == '.') &&
      (forall i :: n <= i < |k| ==> k[i] != '/' && k[i] != '.' && r[i - n] == SanitizeChar(k[i])) &&
      (forall i :: 0 <= i < |r| ==> r[i] != '/' && !IsInvalidNameChar(r[i]))
  {
    if key.Some? && key.value != "" {
      var k := key.value;
      var n := NameStart(k);
      var r := Sanitize(k[n..]);
      assert ClassName(key) == r;
      assert |k| - |r| == n;
      forall i | n <= i < |k|
        ensures r[i - n] == SanitizeChar(k[i])
      {
        assert k[n..][i - n] == k[i];
      }
      forall i | 0 <= i < |r|
        ensures r[i] != '/' && !IsInvalidNameChar(r[i])
      {
        assert k[n..][i] == k[i + n];
      }
    }
  }

  /** `AfterLast(s, c)` is the longest suffix of `s` without `c`. */
  lemma AfterLastSuffix(s: string, c: char)
    ensures var t := AfterLast(s, c); var n := |s| - |t|;
      0 <= n <= |s| && s[n..] == t &&
      (forall i :: 0 <= i < |t| ==> t[i] != c) &&
      (n == 0 || s[n - 1] == c)
  {
  }

  /** Cutting after the last '/' and then after the last '.', as
      `GetClassNameFromKey` does, leaves the suffix from `NameStart`. */
  lemma CutTwiceIsNameStart(k: string)
    ensures AfterLast(AfterLast(k, '/'), '.') == k[NameStart(k)..]
  {
    var a := LastIndexOf(k, '/') + 1;
    var t := k[a..];
    var b := LastIndexOf(t, '.') + 1;
    var n := a + b;
    assert AfterLast(AfterLast(k, '/'), '.') == t[b..] == k[n..];
    forall i | n <= i < |k|
      ensures k[i] != '/' && k[i] != '.'
    {
      assert k[i] == t[i - a];
    }
    if b > 0 {
      assert k[n - 1] == t[b - 1];
    }
    NameStartUnique(k, n);
  }

  /** The examples the unit tests check. */
  lemma ClassNameExamples()
    ensures ClassName(Some("MyClass")) == "MyClass"
    ensures ClassName(None) == "object"
    ensures ClassName(Some("")) == "object"
  {
    NameStartUnique("MyClass", 0);
    assert Sanitize("MyClass") == "MyClass";
  }

  lemma ClassNameQualifiedExamples()
    ensures ClassName(Some("components/schemas/MyClass")) == "MyClass"
  {
    var k := "components/schemas/MyClass";
    NameStartUnique(k, 19);
    assert k[19..] == "MyClass";
    assert Sanitize("MyClass") == "MyClass";
  }

  lemma ClassNameDottedExamples()
    ensures ClassName(Some("components.schemas.MyClass")) == "MyClass"
  {
    var k := "components.schemas.MyClass";
    NameStartUnique(k, 19);
    assert k[19..] == "MyClass";
    assert Sanitize("MyClass") == "MyClass";
  }

  lemma ClassNameSanitizeExamples()
    ensures ClassName(Some("my-class")) == "my_class"
    ensures ClassName(Some("my class")) == "my_class"
    ensures ClassName(Some("my{class}")) == "my_class_"
  {
    NameStartUnique("my-class", 0);
    assert Sanitize("my-class") == "my_class";
    NameStartUnique("my class", 0);
    assert Sanitize("my class") == "my_class";
    NameStartUnique("my{class}", 0);
    assert Sanitize("my{class}") == "my_class_";
  }

  lemma ClassNameKeptExamples()
    ensures ClassName(Some("my.class")) == "class"
    ensures ClassName(Some("my_class")) == "my_class"
  {
    NameStartUnique("my.class", 3);
    assert "my.class"[3..] == "class";
    assert Sanitize("class") == "class";
    NameStartUnique("my_class", 0);
    assert Sanitize("my_class") == "my_class";
  }

  /** The process-wide `_classNamesCache` behind `GetClassNameFromKey`. */
  class ClassNameCache {
    var entries: map<string, string>

    /** Every cached name is the uncached name of its key. */
    ghost predicate Valid()
      reads this
    {
      forall k :: k in entries ==> entries[k] == ClassName(Some(k))
    }

    constructor ()
      ensures Valid() && entries == map[]
    {
      entries := map[];
    }

    /** `GetClassNameFromKey`: a hit returns the cached name, a miss
        computes the name and caches it. */
    method GetClassNameFromKey(key: Option<string>) returns (r: string)
      requires Valid()
      modifies this
      ensures Valid()
      ensures r == ClassName(key)
      ensures entries == if key.None? || key.value == "" then old(entries) else old(entries)[key.value := r]
    {
      if key.None? || key.value == "" {
        return "object";
      }
      var k := key.value;
      if k in entries {
        return entries[k];
      }
      r := ExtractClassName(k);
      entries := entries[k := r];
    }
  }

  /** The cache-miss path of `GetClassNameFromKey`: strip everything up to
      the last '/' and then up to the last '.', and copy the rest through a
      buffer, sanitizing each character. */
  method ExtractClassName(k: string) returns (r: string)
    requires k != ""
    ensures r == ClassName(Some(k))
  {
    var span := k;
    var lastSlash := LastIndexOf(span, '/');
    if lastSlash != -1 {
      span := span[lastSlash + 1..];
    }
    var lastDot := LastIndexOf(span, '.');
    if lastDot != -1 {
      span := span[lastDot + 1..];
    }
    assert span == AfterLast(AfterLast(k, '/'), '.');
    CutTwiceIsNameStart(k);
    r := SanitizeSpan(span);
  }

  /** The `foreach` that copies the span into the buffer with counter `j`,
      replacing each invalid character by '_'. */
  method SanitizeSpan(span: string) returns (r: string)
    ensures r == Sanitize(span)
  {
    var buffer := new char[|span|];
    var j := 0;
    for i := 0 to |span|
      invariant j == i
      invariant forall t :: 0 <= t < j ==> buffer[t] == SanitizeChar(span[t])
    {
      buffer[j] := SanitizeChar(span[i]);
      j := j + 1;
    }
    r := buffer[..j];
    assert forall t :: 0 <= t < |span| ==> r[t] == Sanitize(span)[t];
  }

  // -------------------------------------------------------------- type name

  /** The switch arms of `GetTypeFromKey` for a non-array, non-object type. */
  function ScalarType(schemaType: string, format: Option<string>): Option<string> {
    if schemaType == "integer" then
      if format.None? || format.value == "int32" then Some("int")
      else if format.value == "int64" then Some("long")
      else None
    else if schemaType == "number" then
      if format.None? || format.value == "float" then Some("float")
      else if format.value == "double" then Some("double")
      else None
    else if schemaType == "boolean" then Some("bool")
    else if schemaType == "string" then
      if format == Some("date-time") then Some("DateTimeOffset")
      else if format == Some("date") then Some("DateOnly")
      else if format == Some("time") then Some("TimeOnly")
      else if format == Some("uuid") then Some("Guid")
      else if format == Some("binary") then Some("byte[]")
      else if format == Some("uri") then Some("Uri")
      else if format.None? || format == Some("string") then Some("string")
      else None
    else None
  }

  /** The (type, format) pairs `GetTypeFromKey` can name without recursion;
      `None` in the format column matches a missing format. */
  const IntegerFormats: set<Option<string>> := {None, Some("int32"), Some("int64")}
  const NumberFormats: set<Option<string>> := {None, Some("float"), Some("double")}
  const StringFormats: set<Option<string>> :=
    {None, Some("date-time"), Some("date"), Some("time"), Some("uuid"), Some("binary"), Some("uri"), Some("string")}

  predicate SupportedScalar(schemaType: string, format: Option<string>) {
    || (schemaType == "integer" && format in IntegerFormats)
    || (schemaType == "number" && format in NumberFormats)
    || schemaType == "boolean"
    || (schemaType == "string" && format in StringFormats)
  }

  /** A scalar type is named exactly for the supported (type, format) pairs;
      `boolean` ignores its format, and a missing format of `integer`,
      `number` and `string` means `int`, `float` and `string`. */
  lemma ScalarTypeSupported(schemaType: string, format: Option<string>)
    ensures ScalarType(schemaType, format).Some? <==> SupportedScalar(schemaType, format)
    ensures schemaType == "boolean" ==> ScalarType(schemaType, format) == Some("bool")
    ensures format.None? && schemaType == "integer" ==> ScalarType(schemaType, format) == Some("int")
    ensures format.None? && schemaType == "number" ==> ScalarType(schemaType, format) == Some("float")
    ensures format.None? && schemaType == "string" ==> ScalarType(schemaType, format) == Some("string")
  {
  }

  /** `GetTypeFromKey(schema)`: a reference names its class; a missing type
      or `object` is `object`; an array is its item type followed by `[]`
      (`object[]` without items); a type and format outside the switch throw
      `NotImplementedException`. */
  function TypeName(s: Schema): (r: Result<string, Exception>)
    decreases s
  {
    if s.reference.Some? then Success(ClassName(s.reference))
    else match s.schemaType
      case None => Success("object")
      case Some(t) =>
        if t == "object" then Success("object")
        else if t == "array" then
          if s.items.Some? then
            var element :- TypeName(s.items.value);
            Success(element + "[]")
          else Success("object[]")
        else match ScalarType(t, s.format)
          case Some(name) => Success(name)
          case None => Failure(NotImplemented(s.schemaType))
  }

  /** A schema that `TypeName` resolves without looking at its items. */
  predicate IsArrayWithItems(s: Schema) {
    s.reference.None? && s.schemaType == Some("array") && s.items.Some?
  }

  /** The schema reached by following the items of nested arrays. */
  function Innermost(s: Schema): (e: Schema)
    ensures !IsArrayWithItems(e)
    decreases s
  {
    if IsArrayWithItems(s) then Innermost(s.items.value) else s
  }

  function ArrayDepth(s: Schema): nat
    decreases s
  {
    if IsArrayWithItems(s) then 1 + ArrayDepth(s.items.value) else 0
  }

  function Brackets(n: nat): string {
    if n == 0 then "" else "[]" + Brackets(n - 1)
  }

  /** The type of a nested array is the type of its innermost element with
      one `[]` per nesting level, and it fails exactly when naming that
      element fails, with the same exception. */
  lemma {:induction false} TypeNameOfNestedArray(s: Schema)
    ensures TypeName(s).Failure? <==> TypeName(Innermost(s)).Failure?
    ensures TypeName(s).Failure? ==> TypeName(s) == TypeName(Innermost(s))
    ensures TypeName(s).Success? ==> TypeName(s).value == TypeName(Innermost(s)).value + Brackets(ArrayDepth(s))
    decreases s
  {
    if IsArrayWithItems(s) {
      TypeNameOfNestedArray(s.items.value);
      BracketsAppend(ArrayDepth(s.items.value));
    }
  }

  lemma {:induction false} BracketsAppend(n: nat)
    ensures Brackets(n) + "[]" == Brackets(n + 1)
  {
    if n > 0 {
      BracketsAppend(n - 1);
    }
  }

  /** When `TypeName` fails, and only then: the innermost element has no
      reference and a type that is neither `object`, nor `array`, nor a
      supported scalar; the exception carries that type. A reference
      always wins over the type. */
  lemma TypeNameFailure(s: Schema)
    ensures var e := Innermost(s);
      TypeName(s).Failure? <==>
        e.reference.None? && e.schemaType.Some? && e.schemaType.value != "object" &&
        e.schemaType.value != "array" && !SupportedScalar(e.schemaType.value, e.format)
    ensures TypeName(s).Failure? ==> TypeName(s).error == NotImplemented(Innermost(s).schemaType)
    ensures s.reference.Some? ==> TypeName(s) == Success(ClassName(s.reference))
  {
    TypeNameOfNestedArray(s);
    var e := Innermost(s);
    if e.reference.None? && e.schemaType.Some? {
      ScalarTypeSupported(e.schemaType.value, e.format);
    }
  }

  function TypedSchema(t: Option<string>, f: Option<string>): Schema {
    EmptySchema.(schemaType := t, format := f)
  }

  /** The mappings the unit tests check. */
  lemma TypeNameExamples()
    ensures TypeName(TypedSchema(Some("integer"), None)) == Success("int")
    ensures TypeName(TypedSchema(Some("integer"), Some("int64"))) == Success("long")
    ensures TypeName(TypedSchema(Some("number"), Some("double"))) == Success("double")
  {
  }

  lemma TypeNameStringExamples()
    ensures TypeName(TypedSchema(Some("string"), Some("date-time"))) == Success("DateTimeOffset")
    ensures TypeName(TypedSchema(Some("string"), Some("binary"))) == Success("byte[]")
  {
  }

  lemma TypeNameArrayExamples()
    ensures TypeName(TypedSchema(Some("array"), None)) == Success("object[]")
    ensures TypeName(TypedSchema(None, None)) == Success("object")
    ensures TypeName(TypedSchema(Some("array"), None).(items := Some(TypedSchema(Some("string"), None)))) == Success("string[]")
    ensures TypeName(TypedSchema(Some("unknown"), None)).Failure?
  {
    assert "string" + "[]" == "string[]";
  }

  lemma TypeNameReferenceExample()
    ensures TypeName(EmptySchema.(reference := Some("#/components/schemas/RefType"))) == Success("RefType")
  {
    var k := "#/components/schemas/RefType";
    NameStartUnique(k, 21);
    assert k[21..] == "RefType";
    assert Sanitize("RefType") == "RefType";
  }
}
