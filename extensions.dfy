/** Generator/Extensions.cs: `ToTitleCase` (with its process-wide memo cache
    and the `ManualPascalize` loop behind it) and `FirstCharToLower`.
    Letter case is modelled on ASCII: `char.IsLower`, `ToUpperInvariant` and
    `ToLowerInvariant` act on 'a'..'z' and 'A'..'Z' only. */
module Extensions {
  import opened Wrappers

  predicate IsSeparator(c: char) {
    c == ' ' || c == '_' || c == '-'
  }

  predicate IsLower(c: char) {
    'a' <= c <= 'z'
  }

  predicate IsUpper(c: char) {
    'A' <= c <= 'Z'
  }

  function ToUpper(c: char): (u: char)
    ensures IsLower(c) ==> IsUpper(u) && ToLower(u) == c
    ensures !IsLower(c) ==> u == c
  {
    if IsLower(c) then (c as int - 32) as char else c
  }

  function ToLower(c: char): (l: char)
    ensures IsUpper(c) ==> IsLower(l)
    ensures !IsUpper(c) ==> l == c
  {
    if IsUpper(c) then (c as int + 32) as char else c
  }

  /** Position `i` begins a word: it is the first character or follows a separator. */
  predicate StartsWord(s: string, i: nat)
    requires i < |s|
  {
    i == 0 || IsSeparator(s[i - 1])
  }

  /** What the loop would write at every position: a lower-case letter that
      starts a word is upper-cased, every other character is kept as is. */
  function Capitalized(s: string): (r: string)
    ensures |r| == |s|
  {
    seq(|s|, i requires 0 <= i < |s| => if StartsWord(s, i) && IsLower(s[i]) then ToUpper(s[i]) else s[i])
  }

  /** `s` with every separator character dropped, the rest in order. */
  function RemoveSeparators(s: string): (r: string)
    ensures |r| <= |s|
  {
    if s == [] then []
    else RemoveSeparators(s[..|s| - 1]) + (if IsSeparator(s[|s| - 1]) then [] else [s[|s| - 1]])
  }

  /** The positions of `s` that are not separators, in increasing order. */
  function KeptIndices(s: string): (ks: seq<nat>)
    ensures |ks| <= |s|
    ensures forall k :: 0 <= k < |ks| ==> ks[k] < |s| && !IsSeparator(s[ks[k]])
    ensures forall k, l :: 0 <= k < l < |ks| ==> ks[k] < ks[l]
    ensures forall i :: 0 <= i < |s| && !IsSeparator(s[i]) ==> i in ks
  {
    if s == [] then []
    else
      var n := |s| - 1;
      var prefix := KeptIndices(s[..n]);
      assert forall k :: 0 <= k < |prefix| ==> s[..n][prefix[k]] == s[prefix[k]];
      prefix + (if IsSeparator(s[n]) then [] else [n])
  }

  /** The PascalCase form `ManualPascalize` computes. */
  function Pascalize(s: string): string {
    RemoveSeparators(Capitalized(s))
  }

  /** The last step of `Capitalized` depends only on the character before it. */
  lemma CapitalizedPrefix(s: string, n: nat)
    requires n <= |s|
    ensures Capitalized(s)[..n] == Capitalized(s[..n])
  {
  }

  lemma {:induction false} RemoveSeparatorsAt(s: string)
    ensures |RemoveSeparators(s)| == |KeptIndices(s)|
    ensures forall k :: 0 <= k < |KeptIndices(s)| ==> RemoveSeparators(s)[k] == s[KeptIndices(s)[k]]
  {
    if s != [] {
      var n := |s| - 1;
      RemoveSeparatorsAt(s[..n]);
      var r := RemoveSeparators(s[..n]);
      var ks := KeptIndices(s[..n]);
      var tail := if IsSeparator(s[n]) then [] else [s[n]];
      var kept := if IsSeparator(s[n]) then [] else [n];
      assert RemoveSeparators(s) == r + tail;
      assert KeptIndices(s) == ks + kept;
      forall k | 0 <= k < |ks + kept| ensures (r + tail)[k] == s[(ks + kept)[k]] {
        if k < |ks| {
          assert (r + tail)[k] == r[k] == s[..n][ks[k]];
        }
      }
    }
  }

  /** Two strings with separators at the same positions keep the same
      positions. */
  lemma {:induction false} KeptIndicesSameSeparators(a: string, b: string)
    requires |a| == |b|
    requires forall i :: 0 <= i < |a| ==> (IsSeparator(a[i]) <==> IsSeparator(b[i]))
    ensures KeptIndices(a) == KeptIndices(b)
  {
    if a != [] {
      var n := |a| - 1;
      KeptIndicesSameSeparators(a[..n], b[..n]);
    }
  }

  /** Up-casing never creates or removes a separator. */
  lemma CapitalizedSeparators(s: string)
    ensures forall i :: 0 <= i < |s| ==> (IsSeparator(Capitalized(s)[i]) <==> IsSeparator(s[i]))
  {
  }

  /** `Pascalize` in full: the output enumerates the non-separator positions
      of the input in increasing order (all of them, and no other), and the
      character at each is the input's, upper-cased exactly when it is a
      lower-case letter that starts a word. So the output is never longer
      than the input and holds no separator. */
  lemma PascalizeCharacterisation(s: string)
    ensures |Pascalize(s)| == |KeptIndices(s)| <= |s|
    ensures forall k :: 0 <= k < |Pascalize(s)| ==>
      var i := KeptIndices(s)[k];
      !IsSeparator(s[i]) &&
      Pascalize(s)[k] == (if StartsWord(s, i) && IsLower(s[i]) then ToUpper(s[i]) else s[i])
  {
    CapitalizedSeparators(s);
    KeptIndicesSameSeparators(Capitalized(s), s);
    RemoveSeparatorsAt(Capitalized(s));
  }

  lemma PascalizeHasNoSeparators(s: string)
    ensures forall k :: 0 <= k < |Pascalize(s)| ==> !IsSeparator(Pascalize(s)[k])
  {
    PascalizeCharacterisation(s);
  }

  lemma {:induction false} KeptIndicesAllSeparators(s: string)
    requires forall i :: 0 <= i < |s| ==> IsSeparator(s[i])
    ensures KeptIndices(s) == []
  {
    if s != [] {
      KeptIndicesAllSeparators(s[..|s| - 1]);
    }
  }

  /** A string made only of separators pascalizes to the empty string (no error). */
  lemma PascalizeAllSeparators(s: string)
    requires forall i :: 0 <= i < |s| ==> IsSeparator(s[i])
    ensures Pascalize(s) == []
  {
    PascalizeCharacterisation(s);
    KeptIndicesAllSeparators(s);
  }

  lemma {:induction false} KeptIndicesWithoutSeparators(s: string)
    requires forall i :: 0 <= i < |s| ==> !IsSeparator(s[i])
    ensures KeptIndices(s) == seq(|s|, i requires 0 <= i < |s| => i)
  {
    if s != [] {
      var n := |s| - 1;
      KeptIndicesWithoutSeparators(s[..n]);
      assert !IsSeparator(s[n]);
      assert KeptIndices(s) == KeptIndices(s[..n]) + [n];
      assert seq(|s|, i requires 0 <= i < |s| => i) == seq(n, i requires 0 <= i < n => i) + [n];
    }
  }

  /** A string with no separator keeps its length and changes at most its
      first character, which is upper-cased. */
  lemma PascalizeWithoutSeparators(s: string)
    requires forall i :: 0 <= i < |s| ==> !IsSeparator(s[i])
    ensures |s| > 0 ==> Pascalize(s) == [ToUpper(s[0])] + s[1..]
    ensures |Pascalize(s)| == |s|
  {
    PascalizeCharacterisation(s);
    KeptIndicesWithoutSeparators(s);
    var ks := KeptIndices(s);
    var r := Pascalize(s);
    assert |r| == |s|;
    if |s| > 0 {
      var t := [ToUpper(s[0])] + s[1..];
      forall k | 0 <= k < |s| ensures r[k] == t[k] {
        assert ks[k] == k;
        if k > 0 {
          assert !StartsWord(s, k) && t[k] == s[k];
        }
      }
    }
  }

  lemma {:induction false} RemoveSeparatorsConcat(a: string, b: string)
    ensures RemoveSeparators(a + b) == RemoveSeparators(a) + RemoveSeparators(b)
  {
    if b == [] {
      assert a + b == a;
    } else {
      var n := |a + b| - 1;
      assert (a + b)[..n] == a + b[..|b| - 1];
      assert (a + b)[n] == b[|b| - 1];
      RemoveSeparatorsConcat(a, b[..|b| - 1]);
    }
  }

  /** Words joined by a separator are pascalized word by word. */
  lemma PascalizeAtSeparator(a: string, c: char, b: string)
    requires IsSeparator(c)
    ensures Pascalize(a + [c] + b) == Pascalize(a) + Pascalize(b)
  {
    CapitalizedAtSeparator(a, c, b);
    RemoveSeparatorsConcat(Capitalized(a) + [c], Capitalized(b));
    RemoveSeparatorsConcat(Capitalized(a), [c]);
    assert RemoveSeparators([c]) == [] by {
      assert [c][..0] == [];
    }
  }

  /** A separator starts a fresh word: each side is capitalized on its own. */
  lemma CapitalizedAtSeparator(a: string, c: char, b: string)
    requires IsSeparator(c)
    ensures Capitalized(a + [c] + b) == Capitalized(a) + [c] + Capitalized(b)
  {
    var s := a + [c] + b;
    forall i | 0 <= i < |s| ensures Capitalized(s)[i] == (Capitalized(a) + [c] + Capitalized(b))[i] {
      if i > |a| {
        assert s[i] == b[i - |a| - 1];
        assert i - |a| - 1 == 0 || s[i - 1] == b[i - |a| - 2];
      } else if i < |a| {
        assert s[i] == a[i];
        assert i == 0 || s[i - 1] == a[i - 1];
      }
    }
  }

  /** Reading one more input character: a separator adds nothing, any other
      character adds itself, upper-cased when it is a lower-case letter that
      starts a word. */
  lemma PascalizeStep(s: string, i: nat)
    requires i < |s|
    ensures RemoveSeparators(Capitalized(s)[..i + 1]) == RemoveSeparators(Capitalized(s)[..i]) +
      if IsSeparator(s[i]) then [] else [if StartsWord(s, i) && IsLower(s[i]) then ToUpper(s[i]) else s[i]]
  {
    var done := Capitalized(s)[..i + 1];
    assert done[..i] == Capitalized(s)[..i];
  }

  /** `ManualPascalize`: one pass over the input filling a buffer of the
      input's length, with a write index `j` and a `capitalize` flag. */
  method ManualPascalize(input: string) returns (r: string)
    ensures r == Pascalize(input)
  {
    var buffer := new char[|input|];
    var j := 0;
    var capitalize := true;
    for i := 0 to |input|
      invariant j <= i
      invariant buffer[..j] == RemoveSeparators(Capitalized(input)[..i])
      invariant capitalize == (i == 0 || IsSeparator(input[i - 1]))
    {
      var c := input[i];
      PascalizeStep(input, i);
      if IsSeparator(c) {
        capitalize := true;
        continue;
      }
      buffer[j] := if capitalize && IsLower(c) then ToUpper(c) else c;
      assert buffer[..j + 1] == buffer[..j] + [buffer[j]];
      j := j + 1;
      capitalize := false;
    }
    assert Capitalized(input)[..|input|] == Capitalized(input);
    r := buffer[..j];
  }

  /** `ToTitleCase` without its cache: `null` and `""` throw. */
  function TitleCase(input: Option<string>): (r: Result<string, Exception>)
    ensures input.None? ==> r == Failure(ArgumentNull)
    ensures input == Some("") ==> r == Failure(ArgumentEmpty)
    ensures input.Some? && input.value != "" ==> r == Success(Pascalize(input.value))
  {
    match input
    case None => Failure(ArgumentNull)
    case Some(s) => if s == "" then Failure(ArgumentEmpty) else Success(Pascalize(s))
  }

  /** `s.ToTitleCase()` on a non-null string. */
  function Title(s: string): Result<string, Exception> {
    TitleCase(Some(s))
  }

  /** The process-wide `_cache` of `ToTitleCase`. */
  class TitleCaseCache {
    var entries: map<string, string>

    /** Every cached value is what `ManualPascalize` computes for its key. */
    ghost predicate Valid()
      reads this
    {
      forall k :: k in entries ==> entries[k] == Pascalize(k)
    }

    constructor ()
      ensures Valid() && entries == map[]
    {
      entries := map[];
    }

    /** `ToTitleCase`: a cache hit returns the cached value, a miss computes
        and stores it; either way the result is the uncached one. */
    method ToTitleCase(input: Option<string>) returns (r: Result<string, Exception>)
      requires Valid()
      modifies this
      ensures Valid()
      ensures r == TitleCase(input)
      ensures entries == if r.Success? then old(entries)[input.value := r.value] else old(entries)
    {
      match input {
        case None =>
          return Failure(ArgumentNull);
        case Some(s) =>
          if s == "" {
            return Failure(ArgumentEmpty);
          }
          if s in entries {
            return Success(entries[s]);
          }
          var result := ManualPascalize(s);
          entries := entries[s := result];
          return Success(result);
      }
    }
  }

  /** `FirstCharToLower`: `null` and `""` throw; otherwise the first
      character is lower-cased and the rest copied. */
  function FirstCharToLower(input: Option<string>): (r: Result<string, Exception>)
    ensures input.None? ==> r == Failure(ArgumentNull)
    ensures input == Some("") ==> r == Failure(ArgumentEmpty)
    ensures input.Some? && input.value != "" ==>
      r.Success? && |r.value| == |input.value| &&
      r.value[0] == ToLower(input.value[0]) &&
      forall i :: 1 <= i < |input.value| ==> r.value[i] == input.value[i]
  {
    match input
    case None => Failure(ArgumentNull)
    case Some(s) => if s == "" then Failure(ArgumentEmpty) else Success([ToLower(s[0])] + s[1..])
  }

  /** A single word: its first letter upper-cased. */
  lemma PascalizeWord(w: string, expected: string)
    requires forall i :: 0 <= i < |w| ==> !IsSeparator(w[i])
    requires |w| > 0 && expected == [ToUpper(w[0])] + w[1..]
    ensures Pascalize(w) == expected
  {
    PascalizeWithoutSeparators(w);
  }

  /** The single-word conversions the unit tests check. */
  lemma TitleCaseWordExamples()
    ensures Title("test") == Success("Test")
    ensures Title("Test") == Success("Test")
    ensures Title("testCase") == Success("TestCase")
    ensures Title("t") == Success("T")
  {
    assert ToUpper('t') == 'T' && ToUpper('T') == 'T';
    PascalizeWord("test", "Test");
    PascalizeWord("Test", "Test");
    PascalizeWord("testCase", "TestCase");
    PascalizeWord("t", "T");
  }

  /** The multi-word conversions the unit tests check. */
  lemma TitleCaseSeparatorExamples(c: char)
    requires IsSeparator(c)
    ensures Title("test" + [c] + "case") == Success("TestCase")
  {
    assert ToUpper('t') == 'T' && ToUpper('c') == 'C';
    PascalizeWord("test", "Test");
    PascalizeWord("case", "Case");
    PascalizeAtSeparator("test", c, "case");
    assert "Test" + "Case" == "TestCase";
    assert |"test" + [c] + "case"| == 9;
  }

  lemma TitleCaseThreeWordExample()
    ensures Title("test_case_example") == Success("TestCaseExample")
  {
    TitleCaseSeparatorExamples('_');
    assert ToUpper('e') == 'E';
    PascalizeWord("example", "Example");
    assert "test_case_example" == "test" + ['_'] + "case" + ['_'] + "example";
    PascalizeAtSeparator("test" + ['_'] + "case", '_', "example");
    assert "TestCase" + "Example" == "TestCaseExample";
  }

  lemma FirstCharToLowerExamples()
    ensures FirstCharToLower(Some("Test")) == Success("test")
    ensures FirstCharToLower(Some("T")) == Success("t")
    ensures FirstCharToLower(Some("TestCase")) == Success("testCase")
    ensures FirstCharToLower(Some("Testcase")) == Success("testcase")
  {
    assert ToLower('T') == 't';
    assert ['t'] + "Test"[1..] == "test";
    assert ['t'] + "T"[1..] == "t";
    assert ['t'] + "TestCase"[1..] == "testCase";
    assert ['t'] + "Testcase"[1..] == "testcase";
  }
}
