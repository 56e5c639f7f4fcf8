/** Generator/OperationGenerator.cs: the client classes, one per first path
    segment, and the plan of each client method (its name, return type,
    parameters and request URL). The emitted method bodies (sending the
    request, reading the response, the error handler) are not modelled. */
module Operations {
  import opened Wrappers
  import opened Dictionaries
  import opened OpenApi
  import opened Extensions
  import opened BaseGenerator
  import DataClassRules

  // ------------------------------------------------------- method names

  /** The characters `GetMethodNameFromPath` turns into spaces. */
  predicate IsMethodNameSeparator(c: char) {
    c == '{' || c == '}' || c == '.' || c == '-'
  }

  function Spaced(s: string): (r: string)
    ensures |r| == |s|
    ensures forall i :: 0 <= i < |s| ==> r[i] == if IsMethodNameSeparator(s[i]) then ' ' else s[i]
  {
    seq(|s|, i requires 0 <= i < |s| => if IsMethodNameSeparator(s[i]) then ' ' else s[i])
  }

  /** `char.IsWhiteSpace`, on the ASCII white-space characters. */
  predicate IsWhiteSpace(c: char) {
    c == ' ' || c == '\t' || c == '\n' || c == '\r' || c == '\U{000B}' || c == '\U{000C}'
  }

  /** The first position at or after `i` that is not white space. */
  function TrimStartIndex(s: string, i: nat): (n: nat)
    requires i <= |s|
    ensures i <= n <= |s|
    ensures forall k :: i <= k < n ==> IsWhiteSpace(s[k])
    ensures n == |s| || !IsWhiteSpace(s[n])
    decreases |s| - i
  {
    if i == |s| || !IsWhiteSpace(s[i]) then i else TrimStartIndex(s, i + 1)
  }

  /** The end of `s[lo..j]` once its trailing white space is cut. */
  function TrimEndIndex(s: string, lo: nat, j: nat): (m: nat)
    requires lo <= j <= |s|
    ensures lo <= m <= j
    ensures forall k :: m <= k < j ==> IsWhiteSpace(s[k])
    ensures m == lo || !IsWhiteSpace(s[m - 1])
    decreases j
  {
    if j == lo || !IsWhiteSpace(s[j - 1]) then j else TrimEndIndex(s, lo, j - 1)
  }

  /** `string.Trim()`: the part of `s` between its leading and its trailing
      white space. */
  function Trim(s: string): (r: string)
    ensures |r| <= |s|
    ensures r == [] || (!IsWhiteSpace(r[0]) && !IsWhiteSpace(r[|r| - 1]))
    ensures var a := TrimStartIndex(s, 0);
      a + |r| <= |s| && r == s[a..a + |r|] &&
      (forall k :: 0 <= k < a ==> IsWhiteSpace(s[k])) &&
      (forall k :: a + |r| <= k < |s| ==> IsWhiteSpace(s[k]))
  {
    var a := TrimStartIndex(s, 0);
    s[a..TrimEndIndex(s, a, |s|)]
  }

  /** The text `GetMethodNameFromPath` derives its name from, before the
      separators become spaces: the last two segments (each cut after its
      last '.') when the key has a '/' after position 0 before its last '/'
      and the segment between them has no '{'; otherwise the last segment. */
  function RawMethodName(k: string): string {
    var lastSlash := LastIndexOf(k, '/');
    var prevSlash := if lastSlash > 0 then LastIndexBefore(k, '/', lastSlash) else -1;
    if prevSlash > 0 && '{' !in k[prevSlash + 1..lastSlash] then
      AfterLast(k[prevSlash + 1..lastSlash], '.') + " " + AfterLast(k[lastSlash + 1..], '.')
    else k[lastSlash + 1..]
  }

  /** `GetMethodNameFromPath`. */
  function MethodNameFromPath(key: Option<string>): string {
    if key.None? || key.value == "" then "object"
    else Trim(Spaced(RawMethodName(key.value)))
  }

  /** A method name has no separator character and no white space at
      either end; a missing or empty path is named "object". */
  lemma MethodNameShape(key: Option<string>)
    ensures var r := MethodNameFromPath(key);
      && (key.None? || key.value == "" ==> r == "object")
      && (forall i :: 0 <= i < |r| ==> !IsMethodNameSeparator(r[i]))
      && (r == [] || (!IsWhiteSpace(r[0]) && !IsWhiteSpace(r[|r| - 1])))
  {
    if key.Some? && key.value != "" {
      SpacedTrimmedShape(RawMethodName(key.value));
    }
  }

  /** Trimming the spaced text keeps no separator character. */
  lemma SpacedTrimmedShape(s: string)
    ensures forall i :: 0 <= i < |Trim(Spaced(s))| ==> !IsMethodNameSeparator(Trim(Spaced(s))[i])
  {
    var sp := Spaced(s);
    var r := Trim(sp);
    var a := TrimStartIndex(sp, 0);
    forall i | 0 <= i < |r| ensures !IsMethodNameSeparator(r[i]) {
      assert r[i] == sp[a + i];
    }
  }

  lemma SlashAt(k: string, x: string, b: string)
    requires k == x + "/" + b && '/' !in b
    ensures LastIndexOf(k, '/') == |x|
    ensures k[|x| + 1..] == b
  {
    assert k[|x|] == '/';
    forall i | |x| < i < |k| ensures k[i] != '/' {
      assert k[i] == b[i - |x| - 1];
    }
    assert k[|x| + 1..] == b;
  }

  lemma SlashBefore(k: string, x: string, a: string, end: nat)
    requires end == |x| + 1 + |a| <= |k| && k[..end] == x + "/" + a && '/' !in a
    ensures LastIndexBefore(k, '/', end) == |x|
    ensures k[|x| + 1..end] == a
  {
    assert k[|x|] == k[..end][|x|] == '/';
    forall i | |x| < i < end ensures k[i] != '/' {
      assert k[i] == k[..end][i] == a[i - |x| - 1];
    }
    assert k[|x| + 1..end] == k[..end][|x| + 1..] == a;
  }

  /** Only the last two segments of a path name its method: the pair (each
      cut after its last '.') when something precedes them and the first
      has no '{', else the last one alone. */
  lemma MethodNameOfSegments(x: string, a: string, b: string)
    requires '/' !in a && '/' !in b
    ensures MethodNameFromPath(Some(x + "/" + a + "/" + b)) ==
      Trim(Spaced(if x != "" && '{' !in a then AfterLast(a, '.') + " " + AfterLast(b, '.') else b))
  {
    var k := x + "/" + a + "/" + b;
    var p := |x| + 1 + |a|;
    assert k == (x + "/" + a) + "/" + b;
    SlashAt(k, x + "/" + a, b);
    assert k[..p] == x + "/" + a;
    SlashBefore(k, x, a, p);
  }

  /** A path with a single '/' is named by what follows it. */
  lemma MethodNameOfOneSegment(x: string, b: string)
    requires '/' !in x && '/' !in b
    ensures MethodNameFromPath(Some(x + "/" + b)) == Trim(Spaced(b))
  {
    var k := x + "/" + b;
    SlashAt(k, x, b);
    forall i | 0 <= i < |x| ensures k[i] != '/' {
      assert k[i] == x[i];
    }
  }

  /** A path without '/' is named by itself. */
  lemma MethodNameWithoutSlash(k: string)
    requires k != "" && '/' !in k
    ensures MethodNameFromPath(Some(k)) == Trim(Spaced(k))
  {
    assert LastIndexOf(k, '/') == -1;
    assert k[0..] == k;
    assert RawMethodName(k) == k;
  }

  /** Text without separators or surrounding white space names itself. */
  lemma PlainName(s: string)
    requires forall i :: 0 <= i < |s| ==> !IsMethodNameSeparator(s[i])
    requires s == [] || (!IsWhiteSpace(s[0]) && !IsWhiteSpace(s[|s| - 1]))
    ensures Trim(Spaced(s)) == s
  {
    assert Spaced(s) == s;
    assert TrimStartIndex(s, 0) == 0;
    assert TrimEndIndex(s, 0, |s|) == |s|;
  }

  /** A path that ends in a plain segment after a path parameter, or that
      has only two segments, is named by its last segment. */
  lemma PlainLastSegment(x: string, a: string, b: string)
    requires '/' !in a && '/' !in b && (x == "" || '{' in a)
    requires forall i :: 0 <= i < |b| ==> !IsMethodNameSeparator(b[i])
    requires b == [] || (!IsWhiteSpace(b[0]) && !IsWhiteSpace(b[|b| - 1]))
    ensures MethodNameFromPath(Some(x + "/" + a + "/" + b)) == b
  {
    MethodNameOfSegments(x, a, b);
    PlainName(b);
  }

  // The examples below write each path as its segments joined by "/".

  lemma SpacedParameter()
    ensures Trim(Spaced("{gameCode}")) == "gameCode"
  {
    var sp := Spaced("{gameCode}");
    assert sp == " gameCode ";
    assert TrimStartIndex(sp, 0) == 1;
    assert TrimEndIndex(sp, 1, 10) == 9;
  }

  lemma MethodNameOfPathParameter()
    ensures MethodNameFromPath(Some("" + "/" + "Game" + "/" + "{gameCode}")) == "gameCode"
  {
    MethodNameOfSegments("", "Game", "{gameCode}");
    SpacedParameter();
  }

  lemma MethodNameAfterPathParameter()
    ensures MethodNameFromPath(Some("/Game" + "/" + "{gameCode}" + "/" + "start")) == "start"
  {
    assert "{gameCode}"[0] == '{';
    PlainLastSegment("/Game", "{gameCode}", "start");
  }

  lemma MethodNameOfTwoSegments()
    ensures MethodNameFromPath(Some("" + "/" + "users" + "/" + "get")) == "get"
  {
    PlainLastSegment("", "users", "get");
  }

  /** A path whose next-to-last segment is not a path parameter, after a
      first segment, is named by the dotted ends of its last two segments. */
  lemma PairOfSegments(x: string, a: string, b: string)
    requires '/' !in a && '/' !in b && x != "" && '{' !in a
    ensures MethodNameFromPath(Some(x + "/" + a + "/" + b)) ==
      Trim(Spaced(AfterLast(a, '.') + " " + AfterLast(b, '.')))
  {
    MethodNameOfSegments(x, a, b);
  }

  lemma AfterLastSplit(x: string, y: string, c: char)
    requires c !in y
    ensures AfterLast(x + [c] + y, c) == y
  {
    var s := x + [c] + y;
    assert s[|x|] == c;
    forall i | |x| < i < |s| ensures s[i] != c {
      assert s[i] == y[i - |x| - 1];
    }
    assert s[|x| + 1..] == y;
  }

  lemma DottedParts()
    ensures Trim(Spaced(AfterLast("v1.users", '.') + " " + AfterLast("list.all", '.'))) == "users all"
  {
    assert "v1" + ['.'] + "users" == "v1.users";
    AfterLastSplit("v1", "users", '.');
    assert "list" + ['.'] + "all" == "list.all";
    AfterLastSplit("list", "all", '.');
    assert "users" + " " + "all" == "users all";
    UsersAllPlain();
  }

  /** A helper of `DottedParts`: the spaced, trimmed "users all" is itself. */
  lemma UsersAllPlain()
    ensures Trim(Spaced("users all")) == "users all"
  {
    PlainName("users all");
  }

  lemma MethodNameOfDottedSegments()
    ensures MethodNameFromPath(Some("/api" + "/" + "v1.users" + "/" + "list.all")) == "users all"
  {
    PairOfSegments("/api", "v1.users", "list.all");
    DottedParts();
  }

  // ----------------------------------------------------------- grouping

  /** `IndexOf(c)`: the first position holding `c`, or -1. */
  function IndexOf(s: string, c: char): (r: int)
    ensures -1 <= r < |s|
    ensures r >= 0 ==> s[r] == c
    ensures forall i :: 0 <= i < |s| && (r < 0 || i < r) ==> s[i] != c
  {
    if s == [] then -1
    else if s[0] == c then 0
    else var r := IndexOf(s[1..], c); if r < 0 then -1 else r + 1
  }

  /** `path.Split('/')[1]`: what lies between the first '/' and the next
      one (or the end); a path without '/' has no second part. */
  function FirstSegment(path: string): (r: Result<string, Exception>)
    ensures r.Failure? <==> '/' !in path
    ensures r.Failure? ==> r.error == IndexOutOfRange
    ensures r.Success? ==> '/' !in r.value
  {
    var first := IndexOf(path, '/');
    if first < 0 then Failure(IndexOutOfRange)
    else
      var rest := path[first + 1..];
      var next := IndexOf(rest, '/');
      Success(if next < 0 then rest else rest[..next])
  }

  /** The segment is the text between the first '/' and the next one. */
  lemma FirstSegmentOf(a: string, b: string, c: string)
    requires '/' !in a && '/' !in b && (c == [] || c[0] == '/')
    ensures FirstSegment(a + "/" + b + c) == Success(b)
  {
    var path := a + "/" + b + c;
    assert path[|a|] == '/';
    assert forall i :: 0 <= i < |a| ==> path[i] == a[i];
    assert IndexOf(path, '/') == |a|;
    var rest := path[|a| + 1..];
    assert rest == b + c;
    assert forall i :: 0 <= i < |b| ==> rest[i] == b[i];
    if c != [] {
      assert rest[|b|] == '/';
      assert IndexOf(rest, '/') == |b|;
    } else {
      assert rest == b;
    }
    assert rest[..|b|] == b;
  }

  type Group = (string, seq<(string, PathItem)>)

  /** The segment of every path, in order. */
  function Segments(paths: seq<(string, PathItem)>): (r: Result<seq<string>, Exception>)
    ensures r.Success? <==> forall i :: 0 <= i < |paths| ==> '/' in paths[i].0
    ensures r.Success? ==> |r.value| == |paths|
    ensures r.Success? ==> forall i :: 0 <= i < |paths| ==> FirstSegment(paths[i].0) == Success(r.value[i])
    ensures r.Failure? ==> r.error == IndexOutOfRange
  {
    if paths == [] then Success([])
    else
      var s :- FirstSegment(paths[0].0);
      var rest :- Segments(paths[1..]);
      assert forall i :: 1 <= i < |paths| ==> paths[i] == paths[1..][i - 1];
      Success([s] + rest)
  }

  /** The distinct segments in order of first occurrence. */
  function FirstOccurrences(segs: seq<string>, i: nat, acc: seq<string>): (keys: seq<string>)
    requires i <= |segs|
    decreases |segs| - i
  {
    if i == |segs| then acc
    else FirstOccurrences(segs, i + 1, if segs[i] in acc then acc else acc + [segs[i]])
  }

  /** The paths whose segment is `key`, in document order. */
  function PathsWith(paths: seq<(string, PathItem)>, segs: seq<string>, key: string): seq<(string, PathItem)>
    requires |paths| == |segs|
  {
    if paths == [] then []
    else (if segs[0] == key then [paths[0]] else []) + PathsWith(paths[1..], segs[1..], key)
  }

  /** `Paths.GroupBy(path => path.Key.Split('/')[1]).ToDictionary(...)`. */
  function GroupBy(paths: seq<(string, PathItem)>): Result<seq<Group>, Exception> {
    var segs :- Segments(paths);
    var keys := FirstOccurrences(segs, 0, []);
    Success(seq(|keys|, j requires 0 <= j < |keys| => (keys[j], PathsWith(paths, segs, keys[j]))))
  }

  lemma {:induction false} FirstOccurrencesProperties(segs: seq<string>, i: nat, acc: seq<string>)
    requires i <= |segs|
    requires forall m, n :: 0 <= m < n < |acc| ==> acc[m] != acc[n]
    ensures var keys := FirstOccurrences(segs, i, acc);
      && |acc| <= |keys| && keys[..|acc|] == acc
      && (forall m, n :: 0 <= m < n < |keys| ==> keys[m] != keys[n])
      && (forall m :: i <= m < |segs| ==> segs[m] in keys)
      && (forall m :: |acc| <= m < |keys| ==> keys[m] in segs[i..])
    decreases |segs| - i
  {
    if i < |segs| {
      var acc' := if segs[i] in acc then acc else acc + [segs[i]];
      FirstOccurrencesProperties(segs, i + 1, acc');
      var keys := FirstOccurrences(segs, i, acc);
      assert keys[..|acc|] == keys[..|acc'|][..|acc|];
      forall m | |acc| <= m < |keys| ensures keys[m] in segs[i..] {
        if m >= |acc'| {
          assert keys[m] in segs[i + 1..];
          assert segs[i + 1..] == segs[i..][1..];
        } else {
          assert keys[m] == acc'[m] == segs[i];
          assert segs[i] == segs[i..][0];
        }
      }
      assert segs[i] in acc';
      var k :| 0 <= k < |acc'| && acc'[k] == segs[i];
      assert keys[k] == segs[i];
    }
  }

  lemma {:induction false} PathsWithProperties(paths: seq<(string, PathItem)>, segs: seq<string>, key: string)
    requires |paths| == |segs|
    ensures forall m :: 0 <= m < |PathsWith(paths, segs, key)| ==>
      exists i :: 0 <= i < |paths| && segs[i] == key && PathsWith(paths, segs, key)[m] == paths[i]
    ensures forall i :: 0 <= i < |paths| && segs[i] == key ==> paths[i] in PathsWith(paths, segs, key)
    ensures key in segs ==> PathsWith(paths, segs, key) != []
  {
    forall m | 0 <= m < |PathsWith(paths, segs, key)|
      ensures exists i :: 0 <= i < |paths| && segs[i] == key && PathsWith(paths, segs, key)[m] == paths[i]
    {
      PathsWithOrigin(paths, segs, key, m);
    }
    forall i | 0 <= i < |paths| && segs[i] == key
      ensures paths[i] in PathsWith(paths, segs, key)
    {
      PathsWithComplete(paths, segs, key, i);
    }
    if key in segs {
      var i :| 0 <= i < |segs| && segs[i] == key;
      PathsWithComplete(paths, segs, key, i);
    }
  }

  /** Each member of a group is a path of the group's key. */
  lemma {:induction false} PathsWithOrigin(paths: seq<(string, PathItem)>, segs: seq<string>, key: string, m: nat)
    requires |paths| == |segs| && m < |PathsWith(paths, segs, key)|
    ensures exists i :: 0 <= i < |paths| && segs[i] == key && PathsWith(paths, segs, key)[m] == paths[i]
  {
    var tail := PathsWith(paths[1..], segs[1..], key);
    var head := if segs[0] == key then [paths[0]] else [];
    assert PathsWith(paths, segs, key) == head + tail;
    if m < |head| {
      assert segs[0] == key && PathsWith(paths, segs, key)[m] == paths[0];
    } else {
      PathsWithOrigin(paths[1..], segs[1..], key, m - |head|);
      var i :| 0 <= i < |paths[1..]| && segs[1..][i] == key && tail[m - |head|] == paths[1..][i];
      assert segs[i + 1] == key && PathsWith(paths, segs, key)[m] == paths[i + 1];
    }
  }

  /** Every path of a key is a member of its group. */
  lemma {:induction false} PathsWithComplete(paths: seq<(string, PathItem)>, segs: seq<string>, key: string, i: nat)
    requires |paths| == |segs| && i < |paths| && segs[i] == key
    ensures paths[i] in PathsWith(paths, segs, key)
  {
    var tail := PathsWith(paths[1..], segs[1..], key);
    var head := if segs[0] == key then [paths[0]] else [];
    assert PathsWith(paths, segs, key) == head + tail;
    if i > 0 {
      PathsWithComplete(paths[1..], segs[1..], key, i - 1);
      assert paths[1..][i - 1] == paths[i];
    }
  }

  lemma GroupKeys(paths: seq<(string, PathItem)>)
    requires Segments(paths).Success?
    ensures var segs := Segments(paths).value;
      var keys := FirstOccurrences(segs, 0, []);
      (forall m, n :: 0 <= m < n < |keys| ==> keys[m] != keys[n]) &&
      (forall i :: 0 <= i < |segs| ==> segs[i] in keys) &&
      (forall m :: 0 <= m < |keys| ==> keys[m] in segs)
  {
    var segs := Segments(paths).value;
    FirstOccurrencesProperties(segs, 0, []);
    assert segs[0..] == segs;
  }

  /** The position where `k` first occurs in `segs`. */
  function FirstPosition(segs: seq<string>, k: string): (p: nat)
    requires k in segs
    ensures p < |segs| && segs[p] == k
    ensures forall q :: 0 <= q < p ==> segs[q] != k
  {
    if segs[0] == k then 0
    else
      assert k in segs[1..];
      1 + FirstPosition(segs[1..], k)
  }

  /** `acc` holds every segment before `i`, and only segments that first
      occur before `i`, ordered by where they first occur. */
  predicate FirstOccurrencesSoFar(segs: seq<string>, i: nat, acc: seq<string>) {
    && (forall p :: 0 <= p < i <= |segs| ==> segs[p] in acc)
    && (forall m :: 0 <= m < |acc| ==> acc[m] in segs && FirstPosition(segs, acc[m]) < i)
    && (forall m, n :: 0 <= m < n < |acc| ==>
          acc[m] in segs && acc[n] in segs && FirstPosition(segs, acc[m]) < FirstPosition(segs, acc[n]))
  }

  /** Every key occurs in `segs`, and the keys are ordered by where they
      first occur. */
  predicate InFirstOccurrenceOrder(segs: seq<string>, keys: seq<string>) {
    && (forall m :: 0 <= m < |keys| ==> keys[m] in segs)
    && (forall m, n :: 0 <= m < n < |keys| ==> FirstPosition(segs, keys[m]) < FirstPosition(segs, keys[n]))
  }

  /** The keys found from position `i` on come after those in `acc`, each
      at its first occurrence: the keys are ordered by where they first
      occur. */
  lemma {:induction false} FirstOccurrencesOrder(segs: seq<string>, i: nat, acc: seq<string>)
    requires i <= |segs| && FirstOccurrencesSoFar(segs, i, acc)
    ensures InFirstOccurrenceOrder(segs, FirstOccurrences(segs, i, acc))
    decreases |segs| - i
  {
    if i == |segs| {
      SoFarAtEnd(segs, acc);
    } else if segs[i] in acc {
      FirstOccurrencesStep(segs, i, acc);
      FirstOccurrencesOrder(segs, i + 1, acc);
    } else {
      FreshOccurrenceStep(segs, i, acc);
      FirstOccurrencesOrder(segs, i + 1, acc + [segs[i]]);
    }
  }

  lemma SoFarAtEnd(segs: seq<string>, acc: seq<string>)
    requires FirstOccurrencesSoFar(segs, |segs|, acc)
    ensures InFirstOccurrenceOrder(segs, acc)
  {
  }

  /** A segment already found leaves the keys as they are. */
  lemma FirstOccurrencesStep(segs: seq<string>, i: nat, acc: seq<string>)
    requires i < |segs| && FirstOccurrencesSoFar(segs, i, acc) && segs[i] in acc
    ensures FirstOccurrencesSoFar(segs, i + 1, acc)
  {
  }

  /** A segment not found before occurs at `i` first, and follows the keys. */
  lemma FreshOccurrenceStep(segs: seq<string>, i: nat, acc: seq<string>)
    requires i < |segs| && FirstOccurrencesSoFar(segs, i, acc) && segs[i] !in acc
    ensures FirstOccurrencesSoFar(segs, i + 1, acc + [segs[i]])
  {
    var p := FirstPosition(segs, segs[i]);
    assert p == i;
    var acc' := acc + [segs[i]];
    assert forall m :: 0 <= m < |acc| ==> acc'[m] == acc[m];
  }

  /** The positions from `i` on whose segment is `key`, ascending. */
  function KeyIndices(segs: seq<string>, key: string, i: nat): (idx: seq<nat>)
    requires i <= |segs|
    ensures forall m :: 0 <= m < |idx| ==> i <= idx[m] < |segs| && segs[idx[m]] == key
    ensures forall m, n :: 0 <= m < n < |idx| ==> idx[m] < idx[n]
    ensures forall q :: i <= q < |segs| && segs[q] == key ==> q in idx
    decreases |segs| - i
  {
    if i == |segs| then []
    else (if segs[i] == key then [i] else []) + KeyIndices(segs, key, i + 1)
  }

  /** A group lists exactly the paths at its key's positions, in document
      order. */
  lemma {:induction false} PathsWithOrder(paths: seq<(string, PathItem)>, segs: seq<string>, key: string, i: nat)
    requires |paths| == |segs| && i <= |segs|
    ensures var g := PathsWith(paths[i..], segs[i..], key);
      var idx := KeyIndices(segs, key, i);
      |g| == |idx| && forall m :: 0 <= m < |g| ==> g[m] == paths[idx[m]]
    decreases |segs| - i
  {
    if i < |segs| {
      PathsWithOrder(paths, segs, key, i + 1);
      PathsWithFrom(paths, segs, key, i);
      AlignedCons(paths, segs[i] == key, i, PathsWith(paths[i + 1..], segs[i + 1..], key), KeyIndices(segs, key, i + 1));
    }
  }

  /** One step of `PathsWith` on the paths from `i` on. */
  lemma PathsWithFrom(paths: seq<(string, PathItem)>, segs: seq<string>, key: string, i: nat)
    requires |paths| == |segs| && i < |segs|
    ensures PathsWith(paths[i..], segs[i..], key) ==
      (if segs[i] == key then [paths[i]] else []) + PathsWith(paths[i + 1..], segs[i + 1..], key)
  {
    assert paths[i..][1..] == paths[i + 1..] && segs[i..][1..] == segs[i + 1..];
  }

  /** Putting position `q` (or nothing) in front of an index map keeps the
      map. */
  lemma AlignedCons<T>(xs: seq<T>, b: bool, q: nat, tail: seq<T>, idx: seq<nat>)
    requires q < |xs| && |tail| == |idx|
    requires forall m :: 0 <= m < |idx| ==> idx[m] < |xs| && tail[m] == xs[idx[m]]
    ensures var g := (if b then [xs[q]] else []) + tail;
      var ix := (if b then [q] else []) + idx;
      |g| == |ix| && forall m :: 0 <= m < |g| ==> ix[m] < |xs| && g[m] == xs[ix[m]]
  {
    var g := (if b then [xs[q]] else []) + tail;
    var ix := (if b then [q] else []) + idx;
    var h := if b then 1 else 0;
    forall m | 0 <= m < |g| ensures ix[m] < |xs| && g[m] == xs[ix[m]] {
      if m >= h {
        assert g[m] == tail[m - h] && ix[m] == idx[m - h];
      }
    }
  }

  /** The groups come in the order in which their keys first occur among
      the paths, and each group lists exactly the paths of its key, in
      document order. */
  lemma GroupByOrder(paths: seq<(string, PathItem)>)
    requires GroupBy(paths).Success?
    ensures var segs := Segments(paths).value;
      var groups := GroupBy(paths).value;
      && (forall j :: 0 <= j < |groups| ==> groups[j].0 in segs)
      && (forall j, k :: 0 <= j < k < |groups| ==> FirstPosition(segs, groups[j].0) < FirstPosition(segs, groups[k].0))
      && (forall j :: 0 <= j < |groups| ==>
            var idx := KeyIndices(segs, groups[j].0, 0);
            |groups[j].1| == |idx| && forall m :: 0 <= m < |idx| ==> groups[j].1[m] == paths[idx[m]])
  {
    var segs := Segments(paths).value;
    var keys := FirstOccurrences(segs, 0, []);
    FirstOccurrencesOrder(segs, 0, []);
    var groups := GroupBy(paths).value;
    assert paths[0..] == paths && segs[0..] == segs;
    forall j | 0 <= j < |groups|
      ensures var idx := KeyIndices(segs, groups[j].0, 0);
        |groups[j].1| == |idx| && forall m :: 0 <= m < |idx| ==> groups[j].1[m] == paths[idx[m]]
    {
      PathsWithOrder(paths, segs, keys[j], 0);
    }
  }

  /** Grouping fails exactly when some path has no '/'. Otherwise the
      groups are keyed by distinct segments, no group is empty, every path
      lies in the group of its own segment, and a group holds only paths of
      its segment. `GroupByOrder` states the order of groups and members. */
  lemma GroupByProperties(paths: seq<(string, PathItem)>)
    ensures var r := GroupBy(paths);
      && (r.Failure? <==> exists i :: 0 <= i < |paths| && '/' !in paths[i].0)
      && (r.Failure? ==> r.error == IndexOutOfRange)
      && (r.Success? ==>
           var groups := r.value;
           && DistinctKeys(groups)
           && (forall j :: 0 <= j < |groups| ==> groups[j].1 != [])
           && (forall j, m :: 0 <= j < |groups| && 0 <= m < |groups[j].1| ==>
                 FirstSegment(groups[j].1[m].0) == Success(groups[j].0))
           && (forall i :: 0 <= i < |paths| ==>
                 exists j :: 0 <= j < |groups| && FirstSegment(paths[i].0) == Success(groups[j].0) && paths[i] in groups[j].1))
  {
    var r := GroupBy(paths);
    if r.Success? {
      var segs := Segments(paths).value;
      var keys := FirstOccurrences(segs, 0, []);
      GroupKeys(paths);
      assert Keys(r.value) == keys;
      GroupsHoldTheirPaths(paths);
      GroupsCoverPaths(paths);
    }
  }

  /** No group is empty and a group holds only paths of its segment. */
  lemma GroupsHoldTheirPaths(paths: seq<(string, PathItem)>)
    requires GroupBy(paths).Success?
    ensures var groups := GroupBy(paths).value;
      forall j :: 0 <= j < |groups| ==>
        && groups[j].1 != []
        && forall m :: 0 <= m < |groups[j].1| ==> FirstSegment(groups[j].1[m].0) == Success(groups[j].0)
  {
    var segs := Segments(paths).value;
    var keys := FirstOccurrences(segs, 0, []);
    GroupKeys(paths);
    var groups := GroupBy(paths).value;
    forall j | 0 <= j < |groups|
      ensures groups[j].1 != []
      ensures forall m :: 0 <= m < |groups[j].1| ==> FirstSegment(groups[j].1[m].0) == Success(groups[j].0)
    {
      GroupMembers(paths, segs, keys[j]);
    }
  }

  /** Every path lies in the group of its own segment. */
  lemma GroupsCoverPaths(paths: seq<(string, PathItem)>)
    requires GroupBy(paths).Success?
    ensures var groups := GroupBy(paths).value;
      forall i :: 0 <= i < |paths| ==>
        exists j :: 0 <= j < |groups| && FirstSegment(paths[i].0) == Success(groups[j].0) && paths[i] in groups[j].1
  {
    var segs := Segments(paths).value;
    var keys := FirstOccurrences(segs, 0, []);
    GroupKeys(paths);
    var groups := GroupBy(paths).value;
    forall i | 0 <= i < |paths|
      ensures exists j :: 0 <= j < |groups| && FirstSegment(paths[i].0) == Success(groups[j].0) && paths[i] in groups[j].1
    {
      var j :| 0 <= j < |keys| && keys[j] == segs[i];
      PathsWithComplete(paths, segs, keys[j], i);
      assert FirstSegment(paths[i].0) == Success(groups[j].0) && paths[i] in groups[j].1;
    }
  }

  lemma GroupMembers(paths: seq<(string, PathItem)>, segs: seq<string>, key: string)
    requires |paths| == |segs| && key in segs
    requires forall i :: 0 <= i < |paths| ==> FirstSegment(paths[i].0) == Success(segs[i])
    ensures var g := PathsWith(paths, segs, key);
      g != [] && forall m :: 0 <= m < |g| ==> FirstSegment(g[m].0) == Success(key)
  {
    PathsWithProperties(paths, segs, key);
    var g := PathsWith(paths, segs, key);
    forall m | 0 <= m < |g| ensures FirstSegment(g[m].0) == Success(key) {
      var i :| 0 <= i < |paths| && segs[i] == key && g[m] == paths[i];
    }
  }

  // -------------------------------------------------------------- verbs

  /** The HTTP methods of a path item, in the order `GenerateApiClasses`
      tests them. */
  datatype Verb = Get | Post | Put | Delete | Patch | Head | Options | Trace

  const Verbs: seq<Verb> := [Get, Post, Put, Delete, Patch, Head, Options, Trace]

  /** The `httpMethod.Method switch`: the prefix of every method name. */
  function VerbName(v: Verb): string {
    match v
    case Get => "Get"
    case Post => "Post"
    case Put => "Put"
    case Delete => "Delete"
    case Patch => "Patch"
    case Head => "Head"
    case Options => "Options"
    case Trace => "Trace"
  }

  /** The position of a verb in `Verbs`. */
  function VerbRank(v: Verb): (n: nat)
    ensures n < |Verbs| && Verbs[n] == v
  {
    match v
    case Get => 0
    case Post => 1
    case Put => 2
    case Delete => 3
    case Patch => 4
    case Head => 5
    case Options => 6
    case Trace => 7
  }

  /** `path.Value.Get`, `path.Value.Post`, ... */
  function OperationFor(item: PathItem, v: Verb): Option<Operation> {
    match v
    case Get => item.get
    case Post => item.post
    case Put => item.put
    case Delete => item.delete
    case Patch => item.patch
    case Head => item.head
    case Options => item.options
    case Trace => item.trace
  }

  // ---------------------------------------------------------- responses

  /** `Responses.FirstOrDefault(r => lo <= (int)r.Key < hi)`: the first
      response whose status code lies in `[lo, hi)`. */
  function FirstInRange(rs: seq<(int, Response)>, lo: int, hi: int): (r: Option<(int, Response)>)
    ensures r.None? <==> forall i :: 0 <= i < |rs| ==> !(lo <= rs[i].0 < hi)
    ensures r.Some? ==> lo <= r.value.0 < hi
    ensures r.Some? ==>
      exists i :: 0 <= i < |rs| && rs[i] == r.value && forall j :: 0 <= j < i ==> !(lo <= rs[j].0 < hi)
  {
    if rs == [] then None
    else if lo <= rs[0].0 < hi then Some(rs[0])
    else
      var r := FirstInRange(rs[1..], lo, hi);
      assert forall i :: 1 <= i < |rs| ==> rs[i] == rs[1..][i - 1];
      r
  }

  /** Created, Accepted and NoContent make the returned value nullable. */
  predicate NullableStatus(code: int) {
    code == 201 || code == 202 || code == 204
  }

  datatype ReturnType = ReturnType(typeName: string, nullable: bool)

  /** The return-type decision of `GenerateOperationCode`, from the first
      200 response and the first 201-299 response: nothing when the 200
      content map is empty or missing, or when there is no 200 response;
      otherwise the type of the first 200 content schema, nullable when the
      success status admits no body or the schema is nullable. */
  function ReturnDecision(ok: Option<(int, Response)>, success: Option<(int, Response)>): (r: Result<Option<ReturnType>, Exception>)
    ensures (r.Success? && r.value.None?) <==>
      ok.None? || ok.value.1.content.None? || ok.value.1.content == Some([])
    ensures r.Failure? <==>
      ok.Some? && ok.value.1.content.Some? && ok.value.1.content.value != [] &&
      TypeName(ok.value.1.content.value[0].1.schema).Failure?
    ensures r.Failure? ==> r.error == TypeName(ok.value.1.content.value[0].1.schema).error
    ensures r.Success? && r.value.Some? ==>
      var schema := ok.value.1.content.value[0].1.schema;
      && r.value.value.typeName == TypeName(schema).value
      && (r.value.value.nullable <==> (success.Some? && NullableStatus(success.value.0)) || schema.nullable)
  {
    if (ok.Some? && ok.value.1.content == Some([])) || (ok.None? && success.Some?) then Success(None)
    else
      var canBeNull := success.Some? && NullableStatus(success.value.0);
      if ok.Some? && ok.value.1.content.Some? then
        var schema := ok.value.1.content.value[0].1.schema;
        var t :- TypeName(schema);
        Success(Some(ReturnType(t, canBeNull || schema.nullable)))
      else Success(None)
  }

  // --------------------------------------------------------- parameters

  datatype Argument = Argument(typeName: string, name: string)

  /** `parameters`, `optionalParameters` and `hasApiVersionHeader`. */
  datatype ParameterLists = ParameterLists(required: seq<Argument>, optional: seq<Argument>, apiVersionHeader: bool)

  const NoParameters := ParameterLists([], [], false)

  predicate IsApiVersionHeader(p: Parameter) {
    p.name == "api-version" && p.location == "header"
  }

  /** A parameter that becomes an argument of the method. */
  predicate InSignature(p: Parameter) {
    !IsApiVersionHeader(p) && (p.location == "path" || p.location == "query" || p.location == "header")
  }

  /** The `foreach` over the parameters, from position `i` on. */
  function ParameterLoop(ps: seq<Parameter>, i: nat, acc: ParameterLists): Result<ParameterLists, Exception>
    requires i <= |ps|
    decreases |ps| - i
  {
    if i == |ps| then Success(acc)
    else if IsApiVersionHeader(ps[i]) then ParameterLoop(ps, i + 1, acc.(apiVersionHeader := true))
    else if InSignature(ps[i]) then
      var t :- TypeName(ps[i].schema);
      var a := Argument(t, ps[i].name);
      ParameterLoop(ps, i + 1, if ps[i].required then acc.(required := acc.required + [a])
                               else acc.(optional := acc.optional + [a]))
    else ParameterLoop(ps, i + 1, acc)
  }

  /** The parameters that become arguments, in declaration order. */
  function SignatureParameters(ps: seq<Parameter>): (r: seq<Parameter>)
    ensures forall p :: p in r <==> p in ps && InSignature(p)
  {
    if ps == [] then []
    else
      assert ps == [ps[0]] + ps[1..];
      (if InSignature(ps[0]) then [ps[0]] else []) + SignatureParameters(ps[1..])
  }

  /** Every parameter paired with its type name, or the first type error. */
  function Typed(ps: seq<Parameter>): (r: Result<seq<(Parameter, string)>, Exception>)
    ensures r.Success? <==> forall i :: 0 <= i < |ps| ==> TypeName(ps[i].schema).Success?
    ensures r.Success? ==> |r.value| == |ps|
    ensures r.Success? ==> forall i :: 0 <= i < |ps| ==> r.value[i] == (ps[i], TypeName(ps[i].schema).value)
    ensures r.Failure? ==>
      exists i :: 0 <= i < |ps| && TypeName(ps[i].schema) == Failure(r.error) &&
        forall j :: 0 <= j < i ==> TypeName(ps[j].schema).Success?
  {
    if ps == [] then Success([])
    else
      assert forall i :: 1 <= i < |ps| ==> ps[i] == ps[1..][i - 1];
      var t :- TypeName(ps[0].schema);
      var rest :- Typed(ps[1..]);
      Success([(ps[0], t)] + rest)
  }

  /** The arguments of the typed parameters whose `required` is `required`. */
  function Arguments(pairs: seq<(Parameter, string)>, required: bool): seq<Argument> {
    if pairs == [] then []
    else (if pairs[0].0.required == required then [Argument(pairs[0].1, pairs[0].0.name)] else []) +
         Arguments(pairs[1..], required)
  }

  predicate HasApiVersionHeader(ps: seq<Parameter>) {
    exists i :: 0 <= i < |ps| && IsApiVersionHeader(ps[i])
  }

  /** What the parameter loop is meant to compute: the required arguments
      and the optional ones, each in declaration order, and whether an
      `api-version` header was declared. */
  function PlannedParameters(ps: seq<Parameter>): Result<ParameterLists, Exception> {
    var pairs :- Typed(SignatureParameters(ps));
    Success(ParameterLists(Arguments(pairs, true), Arguments(pairs, false), HasApiVersionHeader(ps)))
  }

  /** `acc` followed by the arguments of `typed`, unless typing failed. */
  function Extend(acc: ParameterLists, typed: Result<seq<(Parameter, string)>, Exception>, header: bool): Result<ParameterLists, Exception> {
    match typed
    case Failure(e) => Failure(e)
    case Success(pairs) => Success(ParameterLists(acc.required + Arguments(pairs, true),
                                                  acc.optional + Arguments(pairs, false),
                                                  acc.apiVersionHeader || header))
  }

  /** Adding one argument to the lists. */
  function AddArgument(acc: ParameterLists, p: Parameter, t: string): ParameterLists {
    var a := Argument(t, p.name);
    if p.required then acc.(required := acc.required + [a]) else acc.(optional := acc.optional + [a])
  }

  lemma SignatureStep(ps: seq<Parameter>, i: nat)
    requires i < |ps|
    ensures SignatureParameters(ps[i..]) == (if InSignature(ps[i]) then [ps[i]] else []) + SignatureParameters(ps[i + 1..])
    ensures HasApiVersionHeader(ps[i..]) <==> IsApiVersionHeader(ps[i]) || HasApiVersionHeader(ps[i + 1..])
  {
    var s := ps[i..];
    var rest := ps[i + 1..];
    assert s[0] == ps[i] && s[1..] == rest;
    if HasApiVersionHeader(rest) {
      var k :| 0 <= k < |rest| && IsApiVersionHeader(rest[k]);
      assert s[k + 1] == rest[k];
    }
    if HasApiVersionHeader(s) && !IsApiVersionHeader(ps[i]) {
      var k :| 0 <= k < |s| && IsApiVersionHeader(s[k]);
      assert rest[k - 1] == s[k];
    }
  }

  lemma ExtendCons(acc: ParameterLists, p: Parameter, sig: seq<Parameter>, header: bool)
    ensures var t := TypeName(p.schema);
      Extend(acc, Typed([p] + sig), header) ==
        if t.Failure? then Failure(t.error) else Extend(AddArgument(acc, p, t.value), Typed(sig), header)
  {
    TypedCons(p, sig);
    var t := TypeName(p.schema);
    var tr := Typed(sig);
    if t.Success? && tr.Success? {
      ExtendWithPair(acc, p, t.value, tr.value, header);
    }
  }

  lemma TypedCons(p: Parameter, sig: seq<Parameter>)
    ensures var t := TypeName(p.schema);
      Typed([p] + sig) ==
        if t.Failure? then Failure(t.error)
        else if Typed(sig).Failure? then Failure(Typed(sig).error)
        else Success([(p, t.value)] + Typed(sig).value)
  {
    var xs := [p] + sig;
    assert xs[0] == p && xs[1..] == sig;
  }

  lemma ExtendWithPair(acc: ParameterLists, p: Parameter, t: string, pairs: seq<(Parameter, string)>, header: bool)
    ensures Extend(acc, Success([(p, t)] + pairs), header) == Extend(AddArgument(acc, p, t), Success(pairs), header)
  {
    var a := Argument(t, p.name);
    ArgumentsCons((p, t), pairs, true);
    ArgumentsCons((p, t), pairs, false);
    if p.required {
      assert acc.required + ([a] + Arguments(pairs, true)) == acc.required + [a] + Arguments(pairs, true);
      assert acc.optional + ([] + Arguments(pairs, false)) == acc.optional + Arguments(pairs, false);
    } else {
      assert acc.required + ([] + Arguments(pairs, true)) == acc.required + Arguments(pairs, true);
      assert acc.optional + ([a] + Arguments(pairs, false)) == acc.optional + [a] + Arguments(pairs, false);
    }
  }

  lemma ArgumentsCons(x: (Parameter, string), rest: seq<(Parameter, string)>, required: bool)
    ensures Arguments([x] + rest, required) ==
      (if x.0.required == required then [Argument(x.1, x.0.name)] else []) + Arguments(rest, required)
  {
    var xs := [x] + rest;
    assert xs[0] == x && xs[1..] == rest;
  }

  lemma {:induction false} ParameterLoopFrom(ps: seq<Parameter>, i: nat, acc: ParameterLists)
    requires i <= |ps|
    ensures ParameterLoop(ps, i, acc) == Extend(acc, Typed(SignatureParameters(ps[i..])), HasApiVersionHeader(ps[i..]))
    decreases |ps| - i
  {
    if i == |ps| {
      assert ps[i..] == [];
      assert acc.required + [] == acc.required && acc.optional + [] == acc.optional;
    } else {
      var p := ps[i];
      SignatureStep(ps, i);
      var header := HasApiVersionHeader(ps[i + 1..]);
      var sig := SignatureParameters(ps[i + 1..]);
      if IsApiVersionHeader(p) {
        assert SignatureParameters(ps[i..]) == [] + sig == sig;
        ParameterLoopFrom(ps, i + 1, acc.(apiVersionHeader := true));
      } else if InSignature(p) {
        ExtendCons(acc, p, SignatureParameters(ps[i + 1..]), header);
        if TypeName(p.schema).Success? {
          ParameterLoopFrom(ps, i + 1, AddArgument(acc, p, TypeName(p.schema).value));
        }
      } else {
        assert SignatureParameters(ps[i..]) == [] + sig == sig;
        ParameterLoopFrom(ps, i + 1, acc);
      }
    }
  }

  /** The loop computes the planned parameters. */
  lemma ParameterLoopPlan(ps: seq<Parameter>)
    ensures ParameterLoop(ps, 0, NoParameters) == PlannedParameters(ps)
  {
    ParameterLoopFrom(ps, 0, NoParameters);
    assert ps[0..] == ps;
    var t := Typed(SignatureParameters(ps));
    if t.Success? {
      assert [] + Arguments(t.value, true) == Arguments(t.value, true);
      assert [] + Arguments(t.value, false) == Arguments(t.value, false);
    }
  }

  lemma {:induction false} ArgumentsContents(pairs: seq<(Parameter, string)>, required: bool)
    ensures forall a :: a in Arguments(pairs, required) <==>
      exists i :: 0 <= i < |pairs| && pairs[i].0.required == required && a == Argument(pairs[i].1, pairs[i].0.name)
    ensures |Arguments(pairs, true)| + |Arguments(pairs, false)| == |pairs|
  {
    if pairs != [] {
      ArgumentsContents(pairs[1..], required);
      ArgumentsContents(pairs[1..], !required);
      assert forall i :: 1 <= i < |pairs| ==> pairs[i] == pairs[1..][i - 1];
      forall a | a in Arguments(pairs, required)
        ensures exists i :: 0 <= i < |pairs| && pairs[i].0.required == required && a == Argument(pairs[i].1, pairs[i].0.name)
      {
        if a !in Arguments(pairs[1..], required) {
          assert pairs[0].0.required == required && a == Argument(pairs[0].1, pairs[0].0.name);
        } else {
          var i :| 0 <= i < |pairs[1..]| && pairs[1..][i].0.required == required && a == Argument(pairs[1..][i].1, pairs[1..][i].0.name);
          assert pairs[i + 1] == pairs[1..][i];
        }
      }
    }
  }

  /** Every signature parameter has a type name exactly when every
      parameter of the operation that enters the signature has one. */
  lemma SignatureTyped(ps: seq<Parameter>)
    ensures var sig := SignatureParameters(ps);
      (forall p :: p in ps && InSignature(p) ==> TypeName(p.schema).Success?) <==>
      (forall i :: 0 <= i < |sig| ==> TypeName(sig[i].schema).Success?)
  {
    var sig := SignatureParameters(ps);
    if forall p :: p in ps && InSignature(p) ==> TypeName(p.schema).Success? {
      forall i | 0 <= i < |sig| ensures TypeName(sig[i].schema).Success? {
        assert sig[i] in sig;
      }
    } else {
      var p :| p in ps && InSignature(p) && TypeName(p.schema).Failure?;
      assert p in sig;
      var i :| 0 <= i < |sig| && sig[i] == p;
      assert TypeName(sig[i].schema).Failure?;
    }
  }

  lemma HeaderDeclared(ps: seq<Parameter>)
    ensures HasApiVersionHeader(ps) <==> exists p :: p in ps && IsApiVersionHeader(p)
  {
    if exists p :: p in ps && IsApiVersionHeader(p) {
      var p :| p in ps && IsApiVersionHeader(p);
      var i :| 0 <= i < |ps| && ps[i] == p;
    }
  }

  /** The parameters are planned exactly when every parameter in the
      signature has a type name; otherwise the error is that of a signature
      parameter without one (the first, by `Typed`). When planned, the
      `api-version` header is flagged exactly when one is declared, and
      there is one argument per signature parameter. */
  lemma PlannedParametersOutcome(ps: seq<Parameter>)
    ensures var r := PlannedParameters(ps);
      && (r.Success? <==> forall p :: p in ps && InSignature(p) ==> TypeName(p.schema).Success?)
      && (r.Failure? ==> exists p :: p in ps && InSignature(p) && TypeName(p.schema) == Failure(r.error))
      && (r.Success? ==> |r.value.required| + |r.value.optional| == |SignatureParameters(ps)|)
      && (r.Success? ==> (r.value.apiVersionHeader <==> exists p :: p in ps && IsApiVersionHeader(p)))
  {
    var sig := SignatureParameters(ps);
    var t := Typed(sig);
    SignatureTyped(ps);
    HeaderDeclared(ps);
    if t.Success? {
      ArgumentsContents(t.value, true);
    } else {
      var i :| 0 <= i < |sig| && TypeName(sig[i].schema) == Failure(t.error) &&
        forall j :: 0 <= j < i ==> TypeName(sig[j].schema).Success?;
      assert sig[i] in sig;
    }
  }

  /** The arguments of typed signature parameters, position by position. */
  lemma TypedArguments(sig: seq<Parameter>, req: bool, a: Argument)
    requires Typed(sig).Success?
    ensures a in Arguments(Typed(sig).value, req) <==>
      exists i :: 0 <= i < |sig| && sig[i].required == req && a == Argument(TypeName(sig[i].schema).value, sig[i].name)
  {
    var pairs := Typed(sig).value;
    ArgumentsContents(pairs, req);
    if a in Arguments(pairs, req) {
      var i :| 0 <= i < |pairs| && pairs[i].0.required == req && a == Argument(pairs[i].1, pairs[i].0.name);
      assert pairs[i] == (sig[i], TypeName(sig[i].schema).value);
    }
    if exists i :: 0 <= i < |sig| && sig[i].required == req && a == Argument(TypeName(sig[i].schema).value, sig[i].name) {
      var i :| 0 <= i < |sig| && sig[i].required == req && a == Argument(TypeName(sig[i].schema).value, sig[i].name);
      assert pairs[i] == (sig[i], TypeName(sig[i].schema).value);
    }
  }

  /** The typed signature parameters are those of the operation that
      enter the signature, typed by `TypeName`. */
  lemma SignatureArguments(ps: seq<Parameter>, req: bool, a: Argument)
    requires Typed(SignatureParameters(ps)).Success?
    ensures a in Arguments(Typed(SignatureParameters(ps)).value, req) <==>
      exists p :: p in ps && InSignature(p) && p.required == req && a == Argument(TypeName(p.schema).value, p.name)
  {
    var sig := SignatureParameters(ps);
    TypedArguments(sig, req, a);
    MemberArguments(sig, req, a);
  }

  /** Reading the parameters of `sig` by position or by membership (a
      helper of `SignatureArguments`). */
  lemma MemberArguments(sig: seq<Parameter>, req: bool, a: Argument)
    requires forall i :: 0 <= i < |sig| ==> TypeName(sig[i].schema).Success?
    ensures (exists i :: 0 <= i < |sig| && sig[i].required == req && a == Argument(TypeName(sig[i].schema).value, sig[i].name)) <==>
            (exists p :: p in sig && p.required == req && a == Argument(TypeName(p.schema).value, p.name))
  {
    if exists p :: p in sig && p.required == req && a == Argument(TypeName(p.schema).value, p.name) {
      var p :| p in sig && p.required == req && a == Argument(TypeName(p.schema).value, p.name);
      var i :| 0 <= i < |sig| && sig[i] == p;
      assert sig[i].required == req && a == Argument(TypeName(sig[i].schema).value, sig[i].name);
    }
    if exists i :: 0 <= i < |sig| && sig[i].required == req && a == Argument(TypeName(sig[i].schema).value, sig[i].name) {
      var i :| 0 <= i < |sig| && sig[i].required == req && a == Argument(TypeName(sig[i].schema).value, sig[i].name);
      assert sig[i] in sig;
    }
  }

  /** When planned, the required arguments are those of the required
      signature parameters and the optional arguments those of the others,
      each typed by `TypeName`. */
  lemma PlannedArguments(ps: seq<Parameter>, a: Argument)
    requires PlannedParameters(ps).Success?
    ensures a in PlannedParameters(ps).value.required <==>
      exists p :: p in ps && InSignature(p) && p.required && a == Argument(TypeName(p.schema).value, p.name)
    ensures a in PlannedParameters(ps).value.optional <==>
      exists p :: p in ps && InSignature(p) && !p.required && a == Argument(TypeName(p.schema).value, p.name)
  {
    SignatureArguments(ps, true, a);
    SignatureArguments(ps, false, a);
  }

  // -------------------------------------------------------------- query

  /** `name={name}` for a required query parameter, `name={name ?? null}`
      for an optional one. */
  function QueryPart(p: Parameter): string {
    p.name + "={" + p.name + (if p.required then "" else " ?? null") + "}"
  }

  /** The `foreach` that builds `queryString`, from position `i` on. */
  function QueryLoop(ps: seq<Parameter>, i: nat, url: string, isFirst: bool): string
    requires i <= |ps|
    decreases |ps| - i
  {
    if i == |ps| then url
    else if ps[i].location != "query" then QueryLoop(ps, i + 1, url, isFirst)
    else QueryLoop(ps, i + 1, url + (if isFirst then "?" else "&") + QueryPart(ps[i]), false)
  }

  /** The query parameters' parts, in declaration order. */
  function QueryParts(ps: seq<Parameter>): (r: seq<string>)
    ensures r == [] <==> forall i :: 0 <= i < |ps| ==> ps[i].location != "query"
  {
    if ps == [] then []
    else
      assert forall i :: 1 <= i < |ps| ==> ps[i] == ps[1..][i - 1];
      (if ps[0].location == "query" then [QueryPart(ps[0])] else []) + QueryParts(ps[1..])
  }

  /** The strings of `xs` with `sep` between each two. */
  function Join(xs: seq<string>, sep: string): string {
    if xs == [] then ""
    else if |xs| == 1 then xs[0]
    else xs[0] + sep + Join(xs[1..], sep)
  }

  /** The parts joined by `&`, led by `lead`; nothing without parts. */
  function Led(lead: string, parts: seq<string>): string {
    if parts == [] then "" else lead + Join(parts, "&")
  }

  /** What follows the path in the request URL. */
  function QueryString(ps: seq<Parameter>): string {
    Led("?", QueryParts(ps))
  }

  lemma LedCons(lead: string, part: string, rest: seq<string>)
    ensures Led(lead, [part] + rest) == lead + part + Led("&", rest)
  {
    var xs := [part] + rest;
    assert xs[0] == part && xs[1..] == rest;
    if rest == [] {
      assert Join(xs, "&") == part;
      assert Led(lead, xs) == lead + part + "";
    } else {
      var j := Join(rest, "&");
      assert Join(xs, "&") == part + "&" + j;
      assert Led("&", rest) == "&" + j;
      assert lead + (part + "&" + j) == lead + part + ("&" + j);
    }
  }

  lemma QueryPartsCons(ps: seq<Parameter>, i: nat)
    requires i < |ps|
    ensures QueryParts(ps[i..]) ==
      (if ps[i].location == "query" then [QueryPart(ps[i])] else []) + QueryParts(ps[i + 1..])
  {
    assert ps[i..][0] == ps[i] && ps[i..][1..] == ps[i + 1..];
  }

  lemma {:induction false} QueryLoopFrom(ps: seq<Parameter>, i: nat, url: string, isFirst: bool)
    requires i <= |ps|
    ensures QueryLoop(ps, i, url, isFirst) == url + Led(if isFirst then "?" else "&", QueryParts(ps[i..]))
    decreases |ps| - i
  {
    if i == |ps| {
      assert ps[i..] == [];
    } else {
      QueryPartsCons(ps, i);
      if ps[i].location != "query" {
        QueryLoopFrom(ps, i + 1, url, isFirst);
        assert QueryParts(ps[i..]) == QueryParts(ps[i + 1..]);
      } else {
        var lead := if isFirst then "?" else "&";
        var part := QueryPart(ps[i]);
        QueryLoopFrom(ps, i + 1, url + lead + part, false);
        LedCons(lead, part, QueryParts(ps[i + 1..]));
      }
    }
  }

  /** The request URL is the path, then `?` and the query parts joined by
      `&` in declaration order; just the path without query parameters. */
  lemma QueryLoopJoins(ps: seq<Parameter>, path: string)
    ensures QueryLoop(ps, 0, path, true) == path + QueryString(ps)
    ensures QueryString(ps) == "" <==> forall i :: 0 <= i < |ps| ==> ps[i].location != "query"
  {
    QueryLoopFrom(ps, 0, path, true);
    assert ps[0..] == ps;
    if QueryParts(ps) != [] {
      assert QueryString(ps)[0] == '?';
    }
  }

  // --------------------------------------------------------------- body

  /** The body parameter: for a `$ref` schema typed by the title-cased class
      name and named after that type; for a typed schema typed by its
      title-cased type and named after the method; none for a missing or
      empty content map or an untyped schema. */
  function BodyParameter(body: Option<RequestBody>, methodName: string): (r: Result<Option<Argument>, Exception>)
    ensures body.None? || body.value.content == [] ==> r == Success(None)
    ensures body.Some? && body.value.content != [] ==>
      var schema := body.value.content[0].1.schema;
      && (schema.reference.None? && schema.schemaType.None? ==> r == Success(None))
      && (schema.reference.Some? ==>
            var t := Title(ClassName(schema.reference));
            && (t.Failure? ==> r == Failure(t.error))
            && (t.Success? ==> r == (if t.value == "" then Failure(ArgumentEmpty) else
                                    Success(Some(Argument(t.value, [ToLower(t.value[0])] + t.value[1..]))))))
      && (schema.reference.None? && schema.schemaType.Some? ==>
            var t := Title(ClassName(schema.schemaType));
            && (t.Failure? ==> r == Failure(t.error))
            && (t.Success? ==> r == (if methodName == "" then Failure(ArgumentEmpty) else
                                    Success(Some(Argument(t.value, [ToLower(methodName[0])] + methodName[1..]))))))
  {
    if body.None? || body.value.content == [] then Success(None)
    else
      var schema := body.value.content[0].1.schema;
      if schema.reference.Some? then
        var typeName :- Title(ClassName(schema.reference));
        var name :- FirstCharToLower(Some(typeName));
        Success(Some(Argument(typeName, name)))
      else if schema.schemaType.Some? then
        var typeName :- Title(ClassName(schema.schemaType));
        var name :- FirstCharToLower(Some(methodName));
        Success(Some(Argument(typeName, name)))
      else Success(None)
  }

  // --------------------------------------------------------- operations

  /** The plan of one client method: what its signature and its request
      are made from. `parameters` holds the required arguments followed by
      the body; `optionalParameters` the optional ones. */
  datatype OperationMethod = OperationMethod(
    verb: Verb,
    name: string,
    summary: seq<string>,
    returnType: Option<ReturnType>,
    parameters: seq<Argument>,
    optionalParameters: seq<Argument>,
    bodyName: Option<string>,
    url: string,
    apiVersionHeader: bool)

  function Emitted(m: Option<OperationMethod>): seq<OperationMethod> {
    if m.Some? then [m.value] else []
  }

  /** `GenerateOperationCode`: `None` when the operation is skipped. */
  function OperationSpec(path: string, op: Operation, verb: Verb): Result<Option<OperationMethod>, Exception> {
    var methodName :- Title(MethodNameFromPath(Some(path)));
    var ok := FirstInRange(op.responses, 200, 201);
    var success := FirstInRange(op.responses, 201, 300);
    if ok.None? && success.None? then Success(None)
    else
      var m :- MethodPlan(path, op, verb, methodName, ok, success);
      Success(Some(m))
  }

  /** The method generated for an operation that is not skipped: the
      return type first, then the parameter lists, then the body. */
  function MethodPlan(path: string, op: Operation, verb: Verb, methodName: string,
                      ok: Option<(int, Response)>, success: Option<(int, Response)>): Result<OperationMethod, Exception> {
    var returnType :- ReturnDecision(ok, success);
    var lists :- ParameterLoop(op.parameters, 0, NoParameters);
    var body :- BodyParameter(op.requestBody, methodName);
    var url := QueryLoop(op.parameters, 0, path, true);
    Success(OperationMethod(verb, VerbName(verb) + methodName, SummaryLines(op.summary), returnType,
                            lists.required + (if body.Some? then [body.value] else []), lists.optional,
                            if body.Some? then Some(body.value.name) else None, url, lists.apiVersionHeader))
  }

  /** Neither lookup finds a response exactly when no status is in 200-299. */
  lemma NoSuccessStatus(rs: seq<(int, Response)>)
    ensures FirstInRange(rs, 200, 201).None? && FirstInRange(rs, 201, 300).None? <==>
      forall i :: 0 <= i < |rs| ==> !(200 <= rs[i].0 < 300)
  {
    if FirstInRange(rs, 200, 201).None? && FirstInRange(rs, 201, 300).None? {
      forall i | 0 <= i < |rs| ensures !(200 <= rs[i].0 < 300) {
        assert !(200 <= rs[i].0 < 201) && !(201 <= rs[i].0 < 300);
      }
    }
  }

  /** An operation is skipped exactly when none of its responses has a
      status in 200-299, once its method name is derived. */
  lemma OperationSkipped(path: string, op: Operation, verb: Verb)
    ensures var title := Title(MethodNameFromPath(Some(path)));
      && (title.Failure? ==> OperationSpec(path, op, verb) == Failure(title.error))
      && (title.Success? ==>
           (OperationSpec(path, op, verb) == Success(None) <==>
              forall i :: 0 <= i < |op.responses| ==> !(200 <= op.responses[i].0 < 300)))
  {
    NoSuccessStatus(op.responses);
  }

  /** A generated method is named by the verb and the title-cased path
      name; it carries the operation's summary lines, the planned return
      type, the required arguments followed by the body, the optional
      arguments, the `api-version` flag, and the path with its query string
      as URL. It fails exactly with the first of the return type, the
      parameters and the body that fails. */
  lemma MethodPlanProperties(path: string, op: Operation, verb: Verb, methodName: string,
                             ok: Option<(int, Response)>, success: Option<(int, Response)>)
    ensures var r := MethodPlan(path, op, verb, methodName, ok, success);
      var rt := ReturnDecision(ok, success);
      var lists := PlannedParameters(op.parameters);
      var body := BodyParameter(op.requestBody, methodName);
      && (r.Failure? <==> rt.Failure? || lists.Failure? || body.Failure?)
      && (r.Failure? ==> r.error == (if rt.Failure? then rt.error else if lists.Failure? then lists.error else body.error))
      && (r.Success? ==>
           var m := r.value;
           && m.verb == verb
           && m.name == VerbName(verb) + methodName
           && m.summary == SummaryLines(op.summary)
           && m.returnType == rt.value
           && m.parameters == lists.value.required + (if body.value.Some? then [body.value.value] else [])
           && m.optionalParameters == lists.value.optional
           && m.bodyName == (if body.value.Some? then Some(body.value.value.name) else None)
           && m.url == path + QueryString(op.parameters)
           && m.apiVersionHeader == lists.value.apiVersionHeader)
  {
    ParameterLoopPlan(op.parameters);
    QueryLoopJoins(op.parameters, path);
  }

  /** The first `foreach` over the parameters. */
  method CollectParameters(ps: seq<Parameter>) returns (r: Result<ParameterLists, Exception>)
    ensures r == PlannedParameters(ps)
  {
    var required: seq<Argument> := [];
    var optional: seq<Argument> := [];
    var hasApiVersionHeader := false;
    for i := 0 to |ps|
      invariant ParameterLoop(ps, 0, NoParameters) ==
                ParameterLoop(ps, i, ParameterLists(required, optional, hasApiVersionHeader))
    {
      var p := ps[i];
      if IsApiVersionHeader(p) {
        hasApiVersionHeader := true;
      } else if InSignature(p) {
        var t := TypeName(p.schema);
        if t.Failure? {
          ParameterLoopPlan(ps);
          return Failure(t.error);
        }
        if p.required {
          required := required + [Argument(t.value, p.name)];
        } else {
          optional := optional + [Argument(t.value, p.name)];
        }
      }
    }
    ParameterLoopPlan(ps);
    return Success(ParameterLists(required, optional, hasApiVersionHeader));
  }

  /** The second `foreach` over the parameters: the request URL. */
  method BuildQueryString(ps: seq<Parameter>, path: string) returns (url: string)
    ensures url == path + QueryString(ps)
  {
    url := path;
    var isFirst := true;
    for i := 0 to |ps|
      invariant QueryLoop(ps, 0, path, true) == QueryLoop(ps, i, url, isFirst)
    {
      var p := ps[i];
      if p.location == "query" {
        url := url + (if isFirst then "?" else "&");
        isFirst := false;
        url := url + QueryPart(p);
      }
    }
    QueryLoopJoins(ps, path);
  }

  /** The rest of `GenerateOperationCode` once it knows the operation is
      not skipped. */
  method PlanMethod(path: string, op: Operation, verb: Verb, methodName: string,
                    ok: Option<(int, Response)>, success: Option<(int, Response)>) returns (r: Result<OperationMethod, Exception>)
    ensures r == MethodPlan(path, op, verb, methodName, ok, success)
  {
    ParameterLoopPlan(op.parameters);
    QueryLoopJoins(op.parameters, path);
    var returnType := ReturnDecision(ok, success);
    if returnType.Failure? {
      return Failure(returnType.error);
    }
    var lists := CollectParameters(op.parameters);
    if lists.Failure? {
      return Failure(lists.error);
    }
    var body := BodyParameter(op.requestBody, methodName);
    if body.Failure? {
      return Failure(body.error);
    }
    var parameters := lists.value.required;
    var bodyName: Option<string> := None;
    if body.value.Some? {
      parameters := parameters + [body.value.value];
      bodyName := Some(body.value.value.name);
    }
    var url := BuildQueryString(op.parameters, path);
    assert ParameterLoop(op.parameters, 0, NoParameters) == lists;
    assert QueryLoop(op.parameters, 0, path, true) == url;
    r := Success(OperationMethod(verb, VerbName(verb) + methodName, SummaryLines(op.summary), returnType.value,
                                 parameters, lists.value.optional, bodyName, url, lists.value.apiVersionHeader));
    assert parameters == lists.value.required + (if body.value.Some? then [body.value.value] else []);
    assert bodyName == (if body.value.Some? then Some(body.value.value.name) else None);
    assert r == MethodPlan(path, op, verb, methodName, ok, success);
  }

  /** `GenerateOperationCode`, as it runs. */
  method GenerateOperationCode(path: string, op: Operation, verb: Verb) returns (r: Result<Option<OperationMethod>, Exception>)
    ensures r == OperationSpec(path, op, verb)
  {
    var title := Title(MethodNameFromPath(Some(path)));
    if title.Failure? {
      return Failure(title.error);
    }
    var ok := FirstInRange(op.responses, 200, 201);
    var success := FirstInRange(op.responses, 201, 300);
    if ok.None? && success.None? {
      return Success(None);
    }
    var m := PlanMethod(path, op, verb, title.value, ok, success);
    if m.Failure? {
      return Failure(m.error);
    }
    return Success(Some(m.value));
  }

  // ------------------------------------------------------ the signature

  function Declaration(a: Argument): string {
    a.typeName + " " + a.name
  }

  function OptionalDeclaration(a: Argument): string {
    a.typeName + "? " + a.name + " = null"
  }

  const ConfigureRequest := "Action<HttpRequestMessage>? configureRequest = null"
  const AllowNullOrEmpty := "bool allowNullOrEmptyResponse = false"
  const SerializerOptions := "JsonSerializerOptions? jsonSerializerOptions = null"

  /** The declarations in `parameters`: the required arguments and the body. */
  function RequiredDeclarations(m: OperationMethod): (ds: seq<string>)
    ensures |ds| == |m.parameters|
    ensures forall i :: 0 <= i < |ds| ==> ds[i] == Declaration(m.parameters[i])
  {
    seq(|m.parameters|, i requires 0 <= i < |m.parameters| => Declaration(m.parameters[i]))
  }

  /** The declarations in `optionalParameters`. */
  function OptionalDeclarations(m: OperationMethod): (ds: seq<string>)
    ensures |ds| == |m.optionalParameters|
    ensures forall i :: 0 <= i < |ds| ==> ds[i] == OptionalDeclaration(m.optionalParameters[i])
  {
    seq(|m.optionalParameters|, i requires 0 <= i < |m.optionalParameters| => OptionalDeclaration(m.optionalParameters[i]))
  }

  /** The declarations that close every parameter list: the request hook,
      the empty-response switch when the method returns a value, and the
      serializer options when it returns a value or sends a body. */
  function TailDeclarations(hasReturnType: bool, hasBody: bool): seq<string> {
    [ConfigureRequest] + (if hasReturnType then [AllowNullOrEmpty] else []) +
    (if hasReturnType || hasBody then [SerializerOptions] else [])
  }

  /** The declarations of a method's parameter list, in order. */
  function Declarations(m: OperationMethod): seq<string> {
    RequiredDeclarations(m) + OptionalDeclarations(m) + TailDeclarations(m.returnType.Some?, m.bodyName.Some?)
  }

  /** Each string followed by ", ". */
  function Terminated(xs: seq<string>): string {
    if xs == [] then "" else xs[0] + ", " + Terminated(xs[1..])
  }

  lemma {:induction false} TerminatedConcat(xs: seq<string>, ys: seq<string>)
    ensures Terminated(xs + ys) == Terminated(xs) + Terminated(ys)
  {
    if xs == [] {
      assert xs + ys == ys;
    } else {
      assert (xs + ys)[0] == xs[0] && (xs + ys)[1..] == xs[1..] + ys;
      TerminatedConcat(xs[1..], ys);
    }
  }

  lemma {:induction false} TerminatedJoin(xs: seq<string>, ys: seq<string>)
    requires ys != []
    ensures Terminated(xs) + Join(ys, ", ") == Join(xs + ys, ", ")
  {
    if xs == [] {
      assert xs + ys == ys;
    } else {
      assert (xs + ys)[0] == xs[0] && (xs + ys)[1..] == xs[1..] + ys;
      TerminatedJoin(xs[1..], ys);
    }
  }

  /** `foreach (string parameter in ds) sb.Append(parameter + ", ")`. */
  method AppendEach(text: string, ds: seq<string>) returns (r: string)
    ensures r == text + Terminated(ds)
  {
    r := text;
    for i := 0 to |ds|
      invariant r == text + Terminated(ds[..i])
    {
      assert ds[..i + 1] == ds[..i] + [ds[i]];
      TerminatedConcat(ds[..i], [ds[i]]);
      assert Terminated([ds[i]]) == ds[i] + ", " + Terminated([]);
      r := r + ds[i] + ", ";
    }
    assert ds[..|ds|] == ds;
  }

  lemma TailJoin(hasReturnType: bool, hasBody: bool)
    ensures var more := hasReturnType || hasBody;
      Join(TailDeclarations(hasReturnType, hasBody), ", ") ==
        ConfigureRequest + (if more then ", " else "") +
        (if hasReturnType then AllowNullOrEmpty + (if more then ", " else "") else "") +
        (if more then SerializerOptions else "")
  {
    JoinOptional(ConfigureRequest, AllowNullOrEmpty, SerializerOptions, ", ", hasReturnType, hasBody);
  }

  /** Joining a first part, an optional second and an optional third (a
      helper of `TailJoin`). */
  lemma JoinOptional(c: string, a: string, o: string, sep: string, second: bool, third: bool)
    ensures var more := second || third;
      Join([c] + (if second then [a] else []) + (if more then [o] else []), sep) ==
        c + (if more then sep else "") + (if second then a + (if more then sep else "") else "") + (if more then o else "")
  {
    var xs := [c] + (if second then [a] else []) + (if second || third then [o] else []);
    if second {
      assert xs == [c, a, o] && xs[1..] == [a, o] && xs[1..][1..] == [o];
      assert Join(xs[1..][1..], sep) == o;
      assert Join(xs[1..], sep) == a + sep + o;
      assert Join(xs, sep) == c + sep + (a + sep + o);
    } else if third {
      assert xs == [c, o] && xs[1..] == [o];
    } else {
      assert xs == [c];
    }
  }

  /** The closing declarations as `GenerateOperationCode` appends them. */
  method TailText(hasReturnType: bool, hasBody: bool) returns (text: string)
    ensures text == Join(TailDeclarations(hasReturnType, hasBody), ", ")
  {
    var more := hasReturnType || hasBody;
    TailJoin(hasReturnType, hasBody);
    text := ConfigureRequest + (if more then ", " else "");
    if hasReturnType {
      text := text + AllowNullOrEmpty + (if more then ", " else "");
    }
    if more {
      text := text + SerializerOptions;
    }
  }

  /** The parameter list as `GenerateOperationCode` appends it: the
      declarations in order with ", " between each two. */
  method ParameterListText(m: OperationMethod) returns (text: string)
    ensures text == Join(Declarations(m), ", ")
  {
    var required := RequiredDeclarations(m);
    var optional := OptionalDeclarations(m);
    var tail := TailDeclarations(m.returnType.Some?, m.bodyName.Some?);
    var front := AppendEach("", required);
    front := AppendEach(front, optional);
    var back := TailText(m.returnType.Some?, m.bodyName.Some?);
    text := front + back;
    TerminatedConcat(required, optional);
    TerminatedJoin(required + optional, tail);
    assert front == Terminated(required + optional);
    assert Declarations(m) == required + optional + tail;
  }

  // ------------------------------------------------------------- paths

  /** What the `if (path.Value.<Verb> is not null)` statement of one verb
      yields: nothing without an operation, else the operation's outcome. */
  type Outcome = Option<Result<Option<OperationMethod>, Exception>>

  function OutcomeOf(path: string, item: PathItem, v: Verb): Outcome {
    match OperationFor(item, v)
    case None => None
    case Some(op) => Some(OperationSpec(path, op, v))
  }

  /** The outcomes of a path's verbs, in the fixed verb order. */
  function Outcomes(path: string, item: PathItem): (os: seq<Outcome>)
    ensures |os| == |Verbs|
    ensures forall j :: 0 <= j < |Verbs| ==> os[j] == OutcomeOf(path, item, Verbs[j])
  {
    seq(|Verbs|, j requires 0 <= j < |Verbs| => OutcomeOf(path, item, Verbs[j]))
  }

  /** The eight statements from position `k` on: each generated method is
      appended, the first failure ends the walk. */
  function MethodsFrom(os: seq<Outcome>, k: nat, acc: seq<OperationMethod>): Result<seq<OperationMethod>, Exception>
    requires k <= |os|
    decreases |os| - k
  {
    if k == |os| then Success(acc)
    else match os[k]
      case None => MethodsFrom(os, k + 1, acc)
      case Some(m) =>
        if m.Failure? then Failure(m.error) else MethodsFrom(os, k + 1, acc + Emitted(m.value))
  }

  /** The methods generated for one path after `acc`. */
  function PathMethods(path: string, item: PathItem, acc: seq<OperationMethod>): Result<seq<OperationMethod>, Exception> {
    MethodsFrom(Outcomes(path, item), 0, acc)
  }

  predicate Fails(o: Outcome) {
    o.Some? && o.value.Failure?
  }

  predicate Yields(o: Outcome, m: OperationMethod) {
    o == Some(Success(Some(m)))
  }

  predicate Produces(o: Outcome) {
    o.Some? && o.value.Success? && o.value.value.Some?
  }

  /** Every method an outcome yields carries the verb of its position. */
  predicate Ranked(os: seq<Outcome>) {
    forall j :: 0 <= j < |os| && Produces(os[j]) ==> VerbRank(os[j].value.value.value.verb) == j
  }

  lemma OutcomesRanked(path: string, item: PathItem)
    ensures Ranked(Outcomes(path, item))
  {
    var os := Outcomes(path, item);
    forall j | 0 <= j < |os| && Produces(os[j]) ensures VerbRank(os[j].value.value.value.verb) == j {
      assert os[j] == Some(OperationSpec(path, OperationFor(item, Verbs[j]).value, Verbs[j]));
      SpecVerb(path, OperationFor(item, Verbs[j]).value, Verbs[j]);
      RankOfVerb(j);
    }
  }

  /** Each verb's position in the fixed order is its rank (a helper of
      `OutcomesRanked`). */
  lemma RankOfVerb(j: nat)
    requires j < |Verbs|
    ensures VerbRank(Verbs[j]) == j
  {
  }

  /** The walk succeeds exactly when no outcome from `k` on fails, and
      otherwise fails with the error of the first that does. */
  lemma {:induction false} MethodsOutcome(os: seq<Outcome>, k: nat, acc: seq<OperationMethod>)
    requires k <= |os|
    ensures MethodsFrom(os, k, acc).Success? <==> forall j :: k <= j < |os| ==> !Fails(os[j])
    ensures MethodsFrom(os, k, acc).Failure? ==>
      exists j :: k <= j < |os| && Fails(os[j]) && os[j].value.error == MethodsFrom(os, k, acc).error &&
        forall j' :: k <= j' < j ==> !Fails(os[j'])
    decreases |os| - k
  {
    if k < |os| {
      if os[k].None? {
        MethodsOutcome(os, k + 1, acc);
      } else if os[k].value.Success? {
        MethodsOutcome(os, k + 1, acc + Emitted(os[k].value.value));
      }
    }
  }

  /** The walk appends to `acc` only methods the outcomes from `k` on
      yield, each at the position of its verb. */
  lemma {:induction false} MethodsOrigin(os: seq<Outcome>, k: nat, acc: seq<OperationMethod>)
    requires k <= |os| && Ranked(os)
    requires MethodsFrom(os, k, acc).Success?
    ensures var ms := MethodsFrom(os, k, acc).value;
      |acc| <= |ms| && ms[..|acc|] == acc
    ensures var ms := MethodsFrom(os, k, acc).value;
      forall n :: |acc| <= n < |ms| ==> k <= VerbRank(ms[n].verb) < |os| && Yields(os[VerbRank(ms[n].verb)], ms[n])
    decreases |os| - k
  {
    if k == |os| {
      return;
    }
    if os[k].None? {
      MethodsOrigin(os, k + 1, acc);
      return;
    }
    var m := os[k].value.value;
    var acc' := acc + Emitted(m);
    MethodsOrigin(os, k + 1, acc');
    var ms := MethodsFrom(os, k + 1, acc').value;
    assert ms[..|acc|] == ms[..|acc'|][..|acc|];
    if m.Some? {
      assert ms[|acc|] == m.value;
      assert Produces(os[k]);
    }
  }

  /** The appended methods are in strictly increasing verb order. */
  lemma {:induction false} MethodsOrder(os: seq<Outcome>, k: nat, acc: seq<OperationMethod>)
    requires k <= |os| && Ranked(os)
    requires MethodsFrom(os, k, acc).Success?
    ensures var ms := MethodsFrom(os, k, acc).value;
      forall n, n' :: |acc| <= n < n' < |ms| ==> VerbRank(ms[n].verb) < VerbRank(ms[n'].verb)
    decreases |os| - k
  {
    if k == |os| {
      return;
    }
    if os[k].None? {
      MethodsOrder(os, k + 1, acc);
      return;
    }
    var m := os[k].value.value;
    var acc' := acc + Emitted(m);
    MethodsOrder(os, k + 1, acc');
    if m.Some? {
      MethodsOrigin(os, k + 1, acc');
      var ms := MethodsFrom(os, k + 1, acc').value;
      assert ms == MethodsFrom(os, k, acc).value;
      assert ms[|acc|] == m.value;
      assert Produces(os[k]);
      assert VerbRank(ms[|acc|].verb) == k;
      forall n, n' | |acc| <= n < n' < |ms| ensures VerbRank(ms[n].verb) < VerbRank(ms[n'].verb) {
        if n == |acc| {
          assert k + 1 <= VerbRank(ms[n'].verb);
        }
      }
    }
  }

  /** Every outcome from `k` on that yields a method has it appended. */
  lemma {:induction false} MethodsComplete(os: seq<Outcome>, k: nat, acc: seq<OperationMethod>)
    requires k <= |os| && Ranked(os)
    requires MethodsFrom(os, k, acc).Success?
    ensures var ms := MethodsFrom(os, k, acc).value;
      forall j :: k <= j < |os| && Produces(os[j]) ==> exists n :: |acc| <= n < |ms| && VerbRank(ms[n].verb) == j
    decreases |os| - k
  {
    if k == |os| {
      return;
    }
    if os[k].None? {
      MethodsComplete(os, k + 1, acc);
      return;
    }
    var m := os[k].value.value;
    var acc' := acc + Emitted(m);
    MethodsComplete(os, k + 1, acc');
    var ms := MethodsFrom(os, k + 1, acc').value;
    MethodsOrigin(os, k + 1, acc');
    if m.Some? {
      assert ms[|acc|] == m.value;
      assert Produces(os[k]);
      assert VerbRank(ms[|acc|].verb) == k;
    }
  }

  /** The operations of one path are generated exactly when none fails,
      else the error is that of the first in verb order that does. The
      methods follow `acc` in the fixed verb order Get, Post, Put, Delete,
      Patch, Head, Options, Trace; each is what its verb's operation yields
      and every operation that is not skipped yields one. */
  lemma PathMethodsProperties(path: string, item: PathItem, acc: seq<OperationMethod>)
    ensures var r := PathMethods(path, item, acc);
      var os := Outcomes(path, item);
      && (r.Success? <==> forall j :: 0 <= j < |Verbs| ==> !Fails(os[j]))
      && (r.Failure? ==> exists j :: 0 <= j < |Verbs| && os[j] == Some(Failure(r.error)))
      && (r.Success? ==>
           var ms := r.value;
           && |acc| <= |ms| && ms[..|acc|] == acc
           && (forall n :: |acc| <= n < |ms| ==> OutcomeOf(path, item, ms[n].verb) == Some(Success(Some(ms[n]))))
           && (forall n, n' :: |acc| <= n < n' < |ms| ==> VerbRank(ms[n].verb) < VerbRank(ms[n'].verb))
           && (forall j :: 0 <= j < |Verbs| && Produces(os[j]) ==>
                 exists n :: |acc| <= n < |ms| && ms[n].verb == Verbs[j]))
  {
    var os := Outcomes(path, item);
    OutcomesRanked(path, item);
    MethodsOutcome(os, 0, acc);
    var r := PathMethods(path, item, acc);
    if r.Failure? {
      var j :| 0 <= j < |os| && Fails(os[j]) && os[j].value.error == r.error &&
        forall j' :: 0 <= j' < j ==> !Fails(os[j']);
      assert os[j] == Some(Failure(r.error));
    }
    if r.Success? {
      MethodsOrigin(os, 0, acc);
      MethodsOrder(os, 0, acc);
      MethodsComplete(os, 0, acc);
      var ms := r.value;
      forall n | |acc| <= n < |ms| ensures OutcomeOf(path, item, ms[n].verb) == Some(Success(Some(ms[n]))) {
        assert Yields(os[VerbRank(ms[n].verb)], ms[n]);
      }
      forall j | 0 <= j < |Verbs| && Produces(os[j]) ensures exists n :: |acc| <= n < |ms| && ms[n].verb == Verbs[j] {
        var n :| |acc| <= n < |ms| && VerbRank(ms[n].verb) == j;
      }
    }
  }

  /** One of the eight `if (path.Value.<Verb> is not null)` statements. */
  method EmitOperation(path: string, item: PathItem, k: nat, acc: seq<OperationMethod>) returns (r: Result<seq<OperationMethod>, Exception>)
    requires k < |Verbs|
    ensures MethodsFrom(Outcomes(path, item), k, acc) ==
      if r.Failure? then Failure(r.error) else MethodsFrom(Outcomes(path, item), k + 1, r.value)
  {
    var op := OperationFor(item, Verbs[k]);
    if op.None? {
      return Success(acc);
    }
    var m := GenerateOperationCode(path, op.value, Verbs[k]);
    if m.Failure? {
      return Failure(m.error);
    }
    return Success(acc + Emitted(m.value));
  }

  /** The operations of one path, in the fixed verb order, appended to the
      methods generated so far. */
  method GeneratePathOperations(path: string, item: PathItem, methods: seq<OperationMethod>) returns (r: Result<seq<OperationMethod>, Exception>)
    ensures r == PathMethods(path, item, methods)
  {
    var acc := methods;
    for k := 0 to |Verbs|
      invariant PathMethods(path, item, methods) == MethodsFrom(Outcomes(path, item), k, acc)
    {
      var step := EmitOperation(path, item, k, acc);
      if step.Failure? {
        return Failure(step.error);
      }
      acc := step.value;
    }
    return Success(acc);
  }

  /** The method an operation yields carries the operation's verb. */
  lemma SpecVerb(path: string, op: Operation, verb: Verb)
    requires OperationSpec(path, op, verb).Success? && OperationSpec(path, op, verb).value.Some?
    ensures OperationSpec(path, op, verb).value.value.verb == verb
    ensures VerbName(verb) <= OperationSpec(path, op, verb).value.value.name
  {
    var title := Title(MethodNameFromPath(Some(path)));
    var ok := FirstInRange(op.responses, 200, 201);
    var success := FirstInRange(op.responses, 201, 300);
    assert title.Success? && (ok.Some? || success.Some?);
    var m := MethodPlan(path, op, verb, title.value, ok, success);
    assert m.Success? && OperationSpec(path, op, verb).value.value == m.value;
    MethodPlanNamed(path, op, verb, title.value, ok, success);
  }

  /** A planned method carries its verb, and its name is the verb's
      followed by the method name. */
  lemma MethodPlanNamed(path: string, op: Operation, verb: Verb, methodName: string,
                        ok: Option<(int, Response)>, success: Option<(int, Response)>)
    ensures MethodPlan(path, op, verb, methodName, ok, success).Success? ==>
      && MethodPlan(path, op, verb, methodName, ok, success).value.verb == verb
      && MethodPlan(path, op, verb, methodName, ok, success).value.name == VerbName(verb) + methodName
  {
  }

  // ------------------------------------------------------------ classes

  /** `r` with `pre` put before its methods. */
  function Prefixed(pre: seq<OperationMethod>, r: Result<seq<OperationMethod>, Exception>): Result<seq<OperationMethod>, Exception> {
    if r.Failure? then r else Success(pre + r.value)
  }

  /** What the walk appends does not depend on what it appends to. */
  lemma {:induction false} MethodsFromPrefix(os: seq<Outcome>, k: nat, pre: seq<OperationMethod>, acc: seq<OperationMethod>)
    requires k <= |os|
    ensures MethodsFrom(os, k, pre + acc) == Prefixed(pre, MethodsFrom(os, k, acc))
    decreases |os| - k
  {
    if k < |os| && os[k].Some? && os[k].value.Success? {
      var e := Emitted(os[k].value.value);
      assert pre + acc + e == pre + (acc + e);
      MethodsFromPrefix(os, k + 1, pre, acc + e);
    } else if k < |os| && os[k].None? {
      MethodsFromPrefix(os, k + 1, pre, acc);
    }
  }

  /** The `foreach (var path in group.Value)` loop from position `i` on. */
  function GroupMethods(paths: seq<(string, PathItem)>, i: nat, acc: seq<OperationMethod>): Result<seq<OperationMethod>, Exception>
    requires i <= |paths|
    decreases |paths| - i
  {
    if i == |paths| then Success(acc)
    else
      var ms :- PathMethods(paths[i].0, paths[i].1, acc);
      GroupMethods(paths, i + 1, ms)
  }

  /** The methods of a group: those of each path in turn. */
  function GroupMethodsOf(paths: seq<(string, PathItem)>): Result<seq<OperationMethod>, Exception> {
    if paths == [] then Success([])
    else
      var first :- PathMethods(paths[0].0, paths[0].1, []);
      var rest :- GroupMethodsOf(paths[1..]);
      Success(first + rest)
  }

  /** The loop computes the methods of each path in document order. */
  lemma {:induction false} GroupMethodsJoin(paths: seq<(string, PathItem)>, i: nat, acc: seq<OperationMethod>)
    requires i <= |paths|
    ensures GroupMethods(paths, i, acc) == Prefixed(acc, GroupMethodsOf(paths[i..]))
    decreases |paths| - i
  {
    if i == |paths| {
      assert paths[i..] == [];
      assert acc + [] == acc;
    } else {
      var os := Outcomes(paths[i].0, paths[i].1);
      MethodsFromPrefix(os, 0, acc, []);
      assert acc + [] == acc;
      assert paths[i..][0] == paths[i] && paths[i..][1..] == paths[i + 1..];
      var first := PathMethods(paths[i].0, paths[i].1, []);
      if first.Success? {
        GroupMethodsJoin(paths, i + 1, acc + first.value);
        var rest := GroupMethodsOf(paths[i + 1..]);
        if rest.Success? {
          assert acc + first.value + rest.value == acc + (first.value + rest.value);
        }
      }
    }
  }

  /** A group's methods are generated exactly when every path's are; each
      is what the operation of its verb on one of the group's paths yields. */
  lemma {:induction false} GroupMethodsProperties(paths: seq<(string, PathItem)>)
    ensures GroupMethodsOf(paths).Success? <==> forall i :: 0 <= i < |paths| ==> PathMethods(paths[i].0, paths[i].1, []).Success?
    ensures GroupMethodsOf(paths).Success? ==>
      forall n :: 0 <= n < |GroupMethodsOf(paths).value| ==>
        exists i :: 0 <= i < |paths| &&
          OutcomeOf(paths[i].0, paths[i].1, GroupMethodsOf(paths).value[n].verb) == Some(Success(Some(GroupMethodsOf(paths).value[n])))
  {
    if paths != [] {
      var tail := paths[1..];
      GroupMethodsProperties(tail);
      assert forall i :: 1 <= i < |paths| ==> paths[i] == tail[i - 1];
      var first := PathMethods(paths[0].0, paths[0].1, []);
      if first.Success? && GroupMethodsOf(tail).Success? {
        PathMethodsProperties(paths[0].0, paths[0].1, []);
        var ms := GroupMethodsOf(paths).value;
        var rest := GroupMethodsOf(tail).value;
        assert ms == first.value + rest;
        forall n | 0 <= n < |ms|
          ensures exists i :: 0 <= i < |paths| && OutcomeOf(paths[i].0, paths[i].1, ms[n].verb) == Some(Success(Some(ms[n])))
        {
          if n < |first.value| {
            assert ms[n] == first.value[n];
            assert OutcomeOf(paths[0].0, paths[0].1, ms[n].verb) == Some(Success(Some(ms[n])));
          } else {
            assert ms[n] == rest[n - |first.value|];
            var i :| 0 <= i < |tail| && OutcomeOf(tail[i].0, tail[i].1, rest[n - |first.value|].verb) == Some(Success(Some(rest[n - |first.value|])));
            assert paths[i + 1] == tail[i];
          }
        }
      }
      if !first.Success? {
        assert !PathMethods(paths[0].0, paths[0].1, []).Success?;
      }
    }
  }

  /** The errors of name derivation and type mapping; never a duplicate key. */
  predicate NamingError(e: Exception) {
    e.ArgumentNull? || e.ArgumentEmpty? || e.NotImplemented?
  }

  lemma TitleError(s: string)
    ensures Title(s).Failure? ==> Title(s).error == ArgumentEmpty
  {
  }

  lemma ParameterError(ps: seq<Parameter>)
    ensures ParameterLoop(ps, 0, NoParameters).Failure? ==> NamingError(ParameterLoop(ps, 0, NoParameters).error)
  {
    ParameterLoopPlan(ps);
    PlannedParametersOutcome(ps);
    if PlannedParameters(ps).Failure? {
      var p :| p in ps && InSignature(p) && TypeName(p.schema) == Failure(PlannedParameters(ps).error);
      TypeNameFailure(p.schema);
    }
  }

  /** An operation fails only with a naming or type-mapping error. */
  lemma SpecError(path: string, op: Operation, verb: Verb)
    ensures OperationSpec(path, op, verb).Failure? ==> NamingError(OperationSpec(path, op, verb).error)
  {
    var title := Title(MethodNameFromPath(Some(path)));
    TitleError(MethodNameFromPath(Some(path)));
    if title.Success? {
      MethodPlanError(path, op, verb, title.value, FirstInRange(op.responses, 200, 201), FirstInRange(op.responses, 201, 300));
    }
  }

  /** Planning a method fails only with a naming or type-mapping error. */
  lemma MethodPlanError(path: string, op: Operation, verb: Verb, methodName: string,
                        ok: Option<(int, Response)>, success: Option<(int, Response)>)
    ensures MethodPlan(path, op, verb, methodName, ok, success).Failure? ==>
      NamingError(MethodPlan(path, op, verb, methodName, ok, success).error)
  {
    ReturnDecisionError(ok, success);
    ParameterError(op.parameters);
    BodyParameterError(op.requestBody, methodName);
  }

  lemma ReturnDecisionError(ok: Option<(int, Response)>, success: Option<(int, Response)>)
    ensures ReturnDecision(ok, success).Failure? ==> NamingError(ReturnDecision(ok, success).error)
  {
    if ok.Some? && ok.value.1.content.Some? && ok.value.1.content.value != [] {
      TypeNameFailure(ok.value.1.content.value[0].1.schema);
    }
  }

  lemma BodyParameterError(body: Option<RequestBody>, methodName: string)
    ensures BodyParameter(body, methodName).Failure? ==> NamingError(BodyParameter(body, methodName).error)
  {
    if body.Some? && body.value.content != [] {
      var schema := body.value.content[0].1.schema;
      TitleError(ClassName(schema.reference));
      TitleError(ClassName(schema.schemaType));
    }
  }

  lemma {:induction false} GroupMethodsError(paths: seq<(string, PathItem)>)
    ensures GroupMethodsOf(paths).Failure? ==> NamingError(GroupMethodsOf(paths).error)
  {
    if paths != [] {
      GroupMethodsError(paths[1..]);
      var path := paths[0].0;
      var item := paths[0].1;
      PathMethodsProperties(path, item, []);
      var r := PathMethods(path, item, []);
      if r.Failure? {
        var os := Outcomes(path, item);
        var j :| 0 <= j < |Verbs| && os[j] == Some(Failure(r.error));
        SpecError(path, OperationFor(item, Verbs[j]).value, Verbs[j]);
      }
    }
  }

  /** The `foreach (var path in group.Value)` loop: the methods of every
      path of a group, in document order. */
  method GenerateGroupMethods(paths: seq<(string, PathItem)>) returns (r: Result<seq<OperationMethod>, Exception>)
    ensures r == GroupMethodsOf(paths)
  {
    var methods: seq<OperationMethod> := [];
    for i := 0 to |paths|
      invariant GroupMethods(paths, 0, []) == GroupMethods(paths, i, methods)
    {
      var step := GeneratePathOperations(paths[i].0, paths[i].1, methods);
      if step.Failure? {
        GroupMethodsJoin(paths, 0, []);
        assert paths[0..] == paths;
        return Failure(step.error);
      }
      methods := step.value;
    }
    GroupMethodsJoin(paths, 0, []);
    assert paths[0..] == paths;
    var g := GroupMethodsOf(paths);
    if g.Success? {
      assert [] + g.value == g.value;
    }
    return Success(methods);
  }

  /** `namespaceName`: `document.Info.Version[0]` is read first, so an
      empty version fails before the title is looked at. */
  function ApiNamespace(info: Info): (r: Result<string, Exception>)
    ensures info.version == "" ==> r == Failure(IndexOutOfRange)
    ensures r.Success? ==> info.version != ""
    ensures r.Success? ==>
      Title(ClassName(Some(info.title))).Success? &&
      r.value == Title(ClassName(Some(info.title))).value + "ApiClientV" + [info.version[0]]
    ensures info.version != "" && r.Failure? ==> r == Title(ClassName(Some(info.title))) && r.error == ArgumentEmpty
  {
    if info.version == "" then Failure(IndexOutOfRange)
    else
      TitleError(ClassName(Some(info.title)));
      var title :- Title(ClassName(Some(info.title)));
      Success(title + "ApiClientV" + [info.version[0]])
  }

  /** The models namespace the data classes are generated in is the API
      namespace followed by ".Models"; the two differ only in which error an
      empty version or an unusable title raises first. */
  lemma NamespacesAgree(info: Info)
    ensures info.version != "" ==>
      (DataClassRules.ModelsNamespace(info).Success? <==> ApiNamespace(info).Success?)
    ensures ApiNamespace(info).Success? ==>
      DataClassRules.ModelsNamespace(info) == Success(ApiNamespace(info).value + ".Models")
    ensures info.version == "" && Title(ClassName(Some(info.title))).Failure? ==>
      DataClassRules.ModelsNamespace(info) == Failure(ArgumentEmpty) && ApiNamespace(info) == Failure(IndexOutOfRange)
  {
    TitleError(ClassName(Some(info.title)));
    var t := Title(ClassName(Some(info.title)));
    if info.version != "" && t.Success? {
      var v := [info.version[0]];
      assert t.value + "ApiClient" + "V" + v + ".Models" == t.value + "ApiClientV" + v + ".Models";
    }
  }

  /** `className` of a group. */
  function ClientName(segment: string, version: char): (r: Result<string, Exception>)
    ensures r.Success? <==> Title(ClassName(Some(segment))).Success?
    ensures r.Success? ==> r.value == Title(ClassName(Some(segment))).value + "ClientV" + [version]
    ensures r.Failure? ==> r.error == ArgumentEmpty
  {
    TitleError(ClassName(Some(segment)));
    var title :- Title(ClassName(Some(segment)));
    Success(title + "ClientV" + [version])
  }

  /** One generated client class: its name and namespace, the path segment
      it serves and its methods in order. */
  datatype ApiClass = ApiClass(name: string, namespace: string, segment: string, methods: seq<OperationMethod>)

  /** `result.Add(className, ...)`. */
  function AddClient(classes: Dict<ApiClass>, name: string, c: ApiClass): Result<Dict<ApiClass>, Exception> {
    match Add(classes, name, c)
    case Success(d) => Success(d)
    case Failure(k) => Failure(DuplicateKey(k))
  }

  /** What a group contributes: its segment, its client name and its
      methods, each as derived or the error deriving it raised. */
  datatype GroupPlan = GroupPlan(segment: string, name: Result<string, Exception>, methods: Result<seq<OperationMethod>, Exception>)

  function GroupPlans(version: char, groups: seq<Group>): (plans: seq<GroupPlan>)
    ensures |plans| == |groups|
    ensures forall j :: 0 <= j < |groups| ==>
      plans[j] == GroupPlan(groups[j].0, ClientName(groups[j].0, version), GroupMethodsOf(groups[j].1))
  {
    seq(|groups|, j requires 0 <= j < |groups| => GroupPlan(groups[j].0, ClientName(groups[j].0, version), GroupMethodsOf(groups[j].1)))
  }

  /** The `foreach (var group in groups)` loop from position `i` on: the
      client name, then the methods, then `result.Add`. */
  function ClassesLoop(ns: string, plans: seq<GroupPlan>, i: nat, acc: Dict<ApiClass>): Result<Dict<ApiClass>, Exception>
    requires i <= |plans|
    decreases |plans| - i
  {
    if i == |plans| then Success(acc)
    else
      var name :- plans[i].name;
      var methods :- plans[i].methods;
      var classes :- AddClient(acc, name, ApiClass(name, ns, plans[i].segment, methods));
      ClassesLoop(ns, plans, i + 1, classes)
  }

  /** `GenerateApiClasses`: the client classes by name. */
  function ApiClasses(doc: Document): Result<Dict<ApiClass>, Exception> {
    var ns :- ApiNamespace(doc.info);
    var groups :- GroupBy(doc.paths);
    ClassesLoop(ns, GroupPlans(doc.info.version[0], groups), 0, [])
  }

  lemma AddedKeys(acc: Dict<ApiClass>, name: string, c: ApiClass, k: string)
    ensures HasKey(acc + [(name, c)], k) <==> HasKey(acc, k) || k == name
  {
    assert Keys(acc + [(name, c)]) == Keys(acc) + [name];
  }

  /** The loop adds one class per plan, in order, after `acc`: the class of
      plan `j` is keyed by its client name, lies in namespace `ns`, serves
      the plan's segment and holds its methods. The keys stay distinct. */
  /** The entry the loop adds for a plan: keyed by the plan's client name,
      in namespace `ns`, serving its segment and holding its methods. */
  predicate ClassOfPlan(ns: string, p: GroupPlan, e: (string, ApiClass)) {
    && p.name == Success(e.0)
    && p.methods == Success(e.1.methods)
    && e.1 == ApiClass(e.0, ns, p.segment, e.1.methods)
  }

  lemma {:induction false} ClassesLoopShape(ns: string, plans: seq<GroupPlan>, i: nat, acc: Dict<ApiClass>)
    requires i <= |plans| && DistinctKeys(acc)
    requires ClassesLoop(ns, plans, i, acc).Success?
    ensures |ClassesLoop(ns, plans, i, acc).value| == |acc| + |plans| - i
    ensures ClassesLoop(ns, plans, i, acc).value[..|acc|] == acc
    ensures DistinctKeys(ClassesLoop(ns, plans, i, acc).value)
    ensures forall j :: i <= j < |plans| ==> ClassOfPlan(ns, plans[j], ClassesLoop(ns, plans, i, acc).value[|acc| + j - i])
    decreases |plans| - i
  {
    if i < |plans| {
      var name := plans[i].name.value;
      var c := ApiClass(name, ns, plans[i].segment, plans[i].methods.value);
      var acc' := acc + [(name, c)];
      assert AddClient(acc, name, c) == Success(acc');
      ClassesLoopShape(ns, plans, i + 1, acc');
      var cs := ClassesLoop(ns, plans, i, acc).value;
      assert cs == ClassesLoop(ns, plans, i + 1, acc').value;
      assert cs[..|acc|] == cs[..|acc'|][..|acc|];
      assert cs[|acc|] == acc'[|acc|] == (name, c);
    }
  }

  /** The loop succeeds exactly when every plan has a client name and
      methods, and the client names are distinct from each other and from
      the keys already in `acc`. */
  lemma {:induction false} ClassesLoopOutcome(ns: string, plans: seq<GroupPlan>, i: nat, acc: Dict<ApiClass>)
    requires i <= |plans|
    ensures ClassesLoop(ns, plans, i, acc).Success? <==>
      && (forall j :: i <= j < |plans| ==> plans[j].name.Success? && plans[j].methods.Success?)
      && (forall j :: i <= j < |plans| && plans[j].name.Success? ==> !HasKey(acc, plans[j].name.value))
      && (forall j, j' :: i <= j < j' < |plans| ==> plans[j].name != plans[j'].name)
    decreases |plans| - i
  {
    if i < |plans| && plans[i].name.Success? && plans[i].methods.Success? {
      var n := plans[i].name.value;
      var c := ApiClass(n, ns, plans[i].segment, plans[i].methods.value);
      var acc' := acc + [(n, c)];
      ClassesLoopOutcome(ns, plans, i + 1, acc');
      forall j | i < j < |plans| && plans[j].name.Success?
        ensures HasKey(acc', plans[j].name.value) <==> HasKey(acc, plans[j].name.value) || plans[j].name == plans[i].name
      {
        AddedKeys(acc, n, c, plans[j].name.value);
      }
    }
  }

  /** A plan whose name and methods can fail only with naming or
      type-mapping errors. */
  predicate NamedErrors(p: GroupPlan) {
    (p.name.Failure? ==> NamingError(p.name.error)) && (p.methods.Failure? ==> NamingError(p.methods.error))
  }

  lemma PlansNamedErrors(version: char, groups: seq<Group>)
    ensures forall j :: 0 <= j < |groups| ==> NamedErrors(GroupPlans(version, groups)[j])
  {
    forall j | 0 <= j < |groups| ensures NamedErrors(GroupPlans(version, groups)[j]) {
      GroupMethodsError(groups[j].1);
    }
  }

  /** A loop failure is a naming or type-mapping error, or a duplicate
      key that is the client name of a plan whose name `acc` or an earlier
      plan already took. */
  lemma {:induction false} ClassesLoopErrors(ns: string, plans: seq<GroupPlan>, i: nat, acc: Dict<ApiClass>)
    requires i <= |plans|
    requires forall j :: i <= j < |plans| ==> NamedErrors(plans[j])
    ensures ClassesLoop(ns, plans, i, acc).Failure? ==>
      ClassesLoop(ns, plans, i, acc).error.DuplicateKey? || NamingError(ClassesLoop(ns, plans, i, acc).error)
    ensures ClassesLoop(ns, plans, i, acc).Failure? && ClassesLoop(ns, plans, i, acc).error.DuplicateKey? ==>
      exists j :: i <= j < |plans| && plans[j].name == Success(ClassesLoop(ns, plans, i, acc).error.key) &&
        (HasKey(acc, ClassesLoop(ns, plans, i, acc).error.key) ||
         exists j' :: i <= j' < j && plans[j'].name == Success(ClassesLoop(ns, plans, i, acc).error.key))
    decreases |plans| - i
  {
    if i < |plans| && plans[i].name.Success? && plans[i].methods.Success? {
      var n := plans[i].name.value;
      var c := ApiClass(n, ns, plans[i].segment, plans[i].methods.value);
      var r := ClassesLoop(ns, plans, i, acc);
      if HasKey(acc, n) {
        assert r == Failure(DuplicateKey(n));
        assert plans[i].name == Success(r.error.key) && HasKey(acc, r.error.key);
      } else {
        var acc' := acc + [(n, c)];
        ClassesLoopErrors(ns, plans, i + 1, acc');
        assert r == ClassesLoop(ns, plans, i + 1, acc');
        if r.Failure? && r.error.DuplicateKey? {
          var key := r.error.key;
          var j :| i + 1 <= j < |plans| && plans[j].name == Success(key) &&
            (HasKey(acc', key) || exists j' :: i + 1 <= j' < j && plans[j'].name == Success(key));
          AddedKeys(acc, n, c, key);
          if !HasKey(acc, key) && key == n {
            assert i <= i < j && plans[i].name == Success(key);
          }
        }
      }
    }
  }

  /** `GenerateApiClasses` fails with `IndexOutOfRange` for an empty
      version, and, once the namespace is derived, for a path without '/'. */
  lemma ApiClassesIndexErrors(doc: Document)
    ensures doc.info.version == "" ==> ApiClasses(doc) == Failure(IndexOutOfRange)
    ensures ApiNamespace(doc.info).Success? ==>
      (GroupBy(doc.paths).Failure? <==> exists i :: 0 <= i < |doc.paths| && '/' !in doc.paths[i].0)
    ensures ApiNamespace(doc.info).Success? && GroupBy(doc.paths).Failure? ==> ApiClasses(doc) == Failure(IndexOutOfRange)
  {
    GroupByProperties(doc.paths);
  }

  /** When `GenerateApiClasses` succeeds there is one class per group of
      paths, in group order, under distinct names: the class of a group is
      named by its segment and the version's first character, lies in the
      API namespace, serves the group's segment and holds the methods of
      the group's paths. */
  lemma ApiClassesShape(doc: Document)
    requires ApiClasses(doc).Success?
    ensures GroupBy(doc.paths).Success? && ApiNamespace(doc.info).Success?
    ensures |ApiClasses(doc).value| == |GroupBy(doc.paths).value|
    ensures DistinctKeys(ApiClasses(doc).value)
    ensures forall j :: 0 <= j < |ApiClasses(doc).value| ==>
      && ClientName(GroupBy(doc.paths).value[j].0, doc.info.version[0]) == Success(ApiClasses(doc).value[j].0)
      && GroupMethodsOf(GroupBy(doc.paths).value[j].1) == Success(ApiClasses(doc).value[j].1.methods)
      && ApiClasses(doc).value[j].1.namespace == ApiNamespace(doc.info).value
      && ApiClasses(doc).value[j].1.segment == GroupBy(doc.paths).value[j].0
  {
    var ns := ApiNamespace(doc.info).value;
    var groups := GroupBy(doc.paths).value;
    var version := doc.info.version[0];
    assert ApiClasses(doc) == ClassesLoop(ns, GroupPlans(version, groups), 0, []);
    var cs := ApiClasses(doc).value;
    ClassesLoopShape(ns, GroupPlans(version, groups), 0, []);
    forall j | 0 <= j < |cs|
      ensures && ClientName(groups[j].0, version) == Success(cs[j].0)
              && GroupMethodsOf(groups[j].1) == Success(cs[j].1.methods)
              && cs[j].1.namespace == ns
              && cs[j].1.segment == groups[j].0
    {
      GroupClassAt(ns, version, groups, j);
    }
  }

  /** The class the loop generates for group `j`. */
  lemma GroupClassAt(ns: string, version: char, groups: seq<Group>, j: nat)
    requires ClassesLoop(ns, GroupPlans(version, groups), 0, []).Success?
    requires j < |groups|
    ensures var cs := ClassesLoop(ns, GroupPlans(version, groups), 0, []).value;
      && j < |cs|
      && ClientName(groups[j].0, version) == Success(cs[j].0)
      && GroupMethodsOf(groups[j].1) == Success(cs[j].1.methods)
      && cs[j].1.namespace == ns
      && cs[j].1.segment == groups[j].0
  {
    LoopClassAt(ns, GroupPlans(version, groups), j);
    ClassOfGroup(ns, version, groups, j, ClassesLoop(ns, GroupPlans(version, groups), 0, []).value[j]);
  }

  /** The entry the loop adds for plan `j` when it starts from nothing. */
  lemma LoopClassAt(ns: string, plans: seq<GroupPlan>, j: nat)
    requires ClassesLoop(ns, plans, 0, []).Success?
    requires j < |plans|
    ensures |ClassesLoop(ns, plans, 0, []).value| == |plans|
    ensures ClassOfPlan(ns, plans[j], ClassesLoop(ns, plans, 0, []).value[j])
  {
    var empty: Dict<ApiClass> := [];
    ClassesLoopShape(ns, plans, 0, empty);
    assert ClassOfPlan(ns, plans[j], ClassesLoop(ns, plans, 0, empty).value[|empty| + j - 0]);
  }

  /** The entry of one plan, read back in terms of its group (a helper of
      `GroupClassAt`). */
  lemma ClassOfGroup(ns: string, version: char, groups: seq<Group>, j: nat, e: (string, ApiClass))
    requires j < |groups| && ClassOfPlan(ns, GroupPlans(version, groups)[j], e)
    ensures ClientName(groups[j].0, version) == Success(e.0)
    ensures GroupMethodsOf(groups[j].1) == Success(e.1.methods)
    ensures e.1.namespace == ns && e.1.segment == groups[j].0
  {
  }

  /** A failure of `GenerateApiClasses` is an index error, a naming or
      type-mapping error, or a duplicate key that two groups' client names
      share. */
  lemma ApiClassesFailures(doc: Document)
    requires ApiClasses(doc).Failure?
    ensures ApiClasses(doc).error.DuplicateKey? ==>
      exists j, j' :: 0 <= j' < j < |GroupBy(doc.paths).value| &&
        ClientName(GroupBy(doc.paths).value[j].0, doc.info.version[0]) == Success(ApiClasses(doc).error.key) &&
        ClientName(GroupBy(doc.paths).value[j'].0, doc.info.version[0]) == Success(ApiClasses(doc).error.key)
    ensures !ApiClasses(doc).error.DuplicateKey? ==>
      ApiClasses(doc).error == IndexOutOfRange || NamingError(ApiClasses(doc).error)
  {
    GroupByProperties(doc.paths);
    var ns := ApiNamespace(doc.info);
    var groups := GroupBy(doc.paths);
    var e := ApiClasses(doc).error;
    if ns.Success? && groups.Success? {
      var plans := GroupPlans(doc.info.version[0], groups.value);
      PlansNamedErrors(doc.info.version[0], groups.value);
      ClassesLoopErrors(ns.value, plans, 0, []);
      assert ApiClasses(doc) == ClassesLoop(ns.value, plans, 0, []);
      if e.DuplicateKey? {
        assert Keys<ApiClass>([]) == [];
        assert !HasKey<ApiClass>([], e.key);
        var j :| 0 <= j < |plans| && plans[j].name == Success(e.key) &&
          (HasKey<ApiClass>([], e.key) || exists j' :: 0 <= j' < j && plans[j'].name == Success(e.key));
        var j' :| 0 <= j' < j && plans[j'].name == Success(e.key);
        assert ClientName(groups.value[j].0, doc.info.version[0]) == Success(e.key);
        assert ClientName(groups.value[j'].0, doc.info.version[0]) == Success(e.key);
      }
    }
  }

  /** Two groups with the same client name make the loop fail. */
  lemma SharedClientName(ns: string, plans: seq<GroupPlan>, j: nat, j': nat)
    requires j < j' < |plans| && plans[j].name.Success? && plans[j].name == plans[j'].name
    ensures ClassesLoop(ns, plans, 0, []).Failure?
  {
    ClassesLoopOutcome(ns, plans, 0, []);
  }

  /** Segments that differ only in a character the class name replaces by
      '_' share a client name: the classes of "/my-class/..." and
      "/my_class/..." paths cannot both be added. */
  lemma ClientNamesCollide(version: char)
    ensures ClassName(Some("my-class")) == ClassName(Some("my_class"))
    ensures ClientName("my-class", version) == ClientName("my_class", version)
  {
    ClassNameSanitizeExamples();
    ClassNameKeptExamples();
  }

  /** `GenerateApiClasses`, as it runs: the version, the namespace, the
      groups, then one class per group added to the result dictionary. */
  method GenerateApiClasses(doc: Document) returns (r: Result<Dict<ApiClass>, Exception>)
    ensures r == ApiClasses(doc)
  {
    if doc.info.version == "" {
      return Failure(IndexOutOfRange);
    }
    var version := doc.info.version[0];
    var ns := ApiNamespace(doc.info);
    if ns.Failure? {
      return Failure(ns.error);
    }
    var groups := GroupBy(doc.paths);
    if groups.Failure? {
      return Failure(groups.error);
    }
    ghost var plans := GroupPlans(version, groups.value);
    var result: Dict<ApiClass> := [];
    for i := 0 to |groups.value|
      invariant ClassesLoop(ns.value, plans, 0, []) == ClassesLoop(ns.value, plans, i, result)
    {
      var group := groups.value[i];
      var className := ClientName(group.0, version);
      if className.Failure? {
        return Failure(className.error);
      }
      var methods := GenerateGroupMethods(group.1);
      if methods.Failure? {
        return Failure(methods.error);
      }
      if HasKey(result, className.value) {
        return Failure(DuplicateKey(className.value));
      }
      result := result + [(className.value, ApiClass(className.value, ns.value, group.0, methods.value))];
    }
    return Success(result);
  }
}
