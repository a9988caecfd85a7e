/**
 * The shared naming, classification and comment helpers of src/utils/index.ts.
 *
 * lodash's `camelCase` is passed in as an arbitrary function, and the
 * constants FILENAME_COMBINATOR and LINE_FEED (defined in files that are not
 * part of this model) are passed in as arbitrary strings.
 */
module Utils {
  import opened Wrappers
  import opened Proto

  // ---------------------------------------------------------------------------
  // assembleName
  // ---------------------------------------------------------------------------

  /** One argument of `assembleName`: a string, or an array of strings. */
  datatype NamePart = Single(text: string) | Many(texts: seq<string>)

  /** `Array.prototype.flat()` with its default depth of one. */
  function Flatten(args: seq<NamePart>): seq<string>
  {
    if args == [] then []
    else (match args[0] case Single(s) => [s] case Many(ss) => ss) + Flatten(args[1..])
  }

  /** Every string as an argument of its own. */
  function Singles(parts: seq<string>): (args: seq<NamePart>)
    ensures |args| == |parts|
    ensures forall i :: 0 <= i < |parts| ==> args[i] == Single(parts[i])
  {
    seq(|parts|, i requires 0 <= i < |parts| => Single(parts[i]))
  }

  /** `Array.prototype.join(sep)` on an array of strings. */
  function Join(parts: seq<string>, sep: string): string
    decreases |parts|
  {
    if |parts| == 0 then ""
    else if |parts| == 1 then parts[0]
    else Join(parts[..|parts| - 1], sep) + sep + parts[|parts| - 1]
  }

  lemma JoinTwo(a: string, b: string, sep: string)
    ensures Join([a, b], sep) == a + sep + b
  {
    assert [a, b][..1] == [a];
  }

  /** The summed length of all parts. */
  function TotalLength(parts: seq<string>): nat
  {
    if parts == [] then 0 else TotalLength(parts[..|parts| - 1]) + |parts[|parts| - 1]|
  }

  /** `assembleName(...args)`: the arguments flattened one level, joined by the combinator. */
  function AssembleName(args: seq<NamePart>, combinator: string): (r: string)
    ensures Flatten(args) == [] ==> r == ""
    ensures |Flatten(args)| == 1 ==> r == Flatten(args)[0]
  {
    Join(Flatten(args), combinator)
  }

  lemma {:induction false} FlattenConcat(a: seq<NamePart>, b: seq<NamePart>)
    ensures Flatten(a + b) == Flatten(a) + Flatten(b)
  {
    if a == [] {
      assert a + b == b;
    } else {
      assert (a + b)[0] == a[0] && (a + b)[1..] == a[1..] + b;
      FlattenConcat(a[1..], b);
    }
  }

  /** Flattening a list that holds only strings gives that list back. */
  lemma {:induction false} FlattenSingles(parts: seq<string>)
    ensures Flatten(Singles(parts)) == parts
  {
    if parts != [] {
      assert Singles(parts)[1..] == Singles(parts[1..]);
      FlattenSingles(parts[1..]);
    }
  }

  /** Flattening is transparent: nesting strings in arrays does not change the name. */
  lemma AssembleNameFlattenIsTransparent(args: seq<NamePart>, combinator: string)
    ensures AssembleName(args, combinator) == AssembleName(Singles(Flatten(args)), combinator)
  {
    FlattenSingles(Flatten(args));
  }

  /** `assembleName(["svc"], "m")`, `assembleName(["svc", "m"])` and `assembleName("svc", "m")` agree. */
  lemma AssembleNameNestingExample(a: string, b: string, combinator: string)
    ensures AssembleName([Many([a]), Single(b)], combinator) == a + combinator + b
    ensures AssembleName([Many([a, b])], combinator) == a + combinator + b
    ensures AssembleName([Single(a), Single(b)], combinator) == a + combinator + b
  {
    assert Flatten([Many([a]), Single(b)]) == [a, b] by {
      FlattenConcat([Many([a])], [Single(b)]);
      assert [Many([a]), Single(b)] == [Many([a])] + [Single(b)];
    }
    assert Flatten([Many([a, b])]) == [a, b];
    assert Flatten([Single(a), Single(b)]) == [a, b] by {
      assert [Single(a), Single(b)][1..] == [Single(b)];
    }
    assert [a, b][..1] == [a];
    assert AssembleName([Many([a]), Single(b)], combinator) == Join([a, b], combinator);
  }

  lemma {:induction false} JoinConcat(a: seq<string>, b: seq<string>, sep: string)
    requires a != [] && b != []
    ensures Join(a + b, sep) == Join(a, sep) + sep + Join(b, sep)
    decreases |b|
  {
    var n := |a + b|;
    assert (a + b)[n - 1] == b[|b| - 1];
    if |b| == 1 {
      assert (a + b)[..n - 1] == a;
    } else {
      assert (a + b)[..n - 1] == a + b[..|b| - 1];
      JoinConcat(a, b[..|b| - 1], sep);
    }
  }

  /** Names assembled from consecutive groups of arguments are joined by the combinator. */
  lemma AssembleNameConcat(a: seq<NamePart>, b: seq<NamePart>, combinator: string)
    requires Flatten(a) != [] && Flatten(b) != []
    ensures AssembleName(a + b, combinator)
         == AssembleName(a, combinator) + combinator + AssembleName(b, combinator)
  {
    FlattenConcat(a, b);
    JoinConcat(Flatten(a), Flatten(b), combinator);
  }

  lemma {:induction false} JoinLength(parts: seq<string>, sep: string)
    requires parts != []
    ensures |Join(parts, sep)| == TotalLength(parts) + (|parts| - 1) * |sep|
  {
    if |parts| == 1 {
      assert parts[..0] == [];
    } else {
      JoinLength(parts[..|parts| - 1], sep);
    }
  }

  /** The name is exactly as long as its parts plus one combinator between each neighbouring pair. */
  lemma AssembleNameLength(args: seq<NamePart>, combinator: string)
    requires Flatten(args) != []
    ensures |AssembleName(args, combinator)|
         == TotalLength(Flatten(args)) + (|Flatten(args)| - 1) * |combinator|
  {
    JoinLength(Flatten(args), combinator);
  }

  // ---------------------------------------------------------------------------
  // createFileName
  // ---------------------------------------------------------------------------

  /** `createFileName(prefix = 'index', suffix = 'ts')`; `None` is an omitted argument. */
  function CreateFileName(prefix: Option<string>, suffix: Option<string>): (r: string)
    ensures var p, s := prefix.GetOr("index"), suffix.GetOr("ts");
      |r| == |p| + 1 + |s| && r[..|p|] == p && r[|p|] == '.' && r[|p| + 1..] == s
  {
    prefix.GetOr("index") + "." + suffix.GetOr("ts")
  }

  /** The position of the last occurrence of `c` in `s`, or -1. */
  function LastIndexOf(s: string, c: char): (r: int)
    ensures -1 <= r < |s|
    ensures r == -1 ==> c !in s
    ensures 0 <= r ==> s[r] == c && c !in s[r + 1..]
  {
    if s == [] then -1
    else if s[|s| - 1] == c then |s| - 1
    else
      assert s[..|s| - 1] + [s[|s| - 1]] == s;
      var i := LastIndexOf(s[..|s| - 1], c);
      assert 0 <= i ==> s[i + 1..] == s[..|s| - 1][i + 1..] + [s[|s| - 1]];
      i
  }

  lemma {:induction false} LastIndexOfAfter(x: string, c: char, y: string)
    requires c !in y
    ensures LastIndexOf(x + [c] + y, c) == |x|
    decreases |y|
  {
    var s := x + [c] + y;
    if y != [] {
      assert s[..|s| - 1] == x + [c] + y[..|y| - 1];
      LastIndexOfAfter(x, c, y[..|y| - 1]);
    }
  }

  lemma CreateFileNameDefaults()
    ensures CreateFileName(None, None) == "index.ts"
  {
  }

  /** A suffix without a dot is recovered as the text after the last dot, and the prefix as the text before it. */
  lemma CreateFileNameSplits(prefix: Option<string>, suffix: Option<string>)
    requires '.' !in suffix.GetOr("ts")
    ensures var r, i := CreateFileName(prefix, suffix), LastIndexOf(CreateFileName(prefix, suffix), '.');
      0 <= i && r[..i] == prefix.GetOr("index") && r[i + 1..] == suffix.GetOr("ts")
  {
    LastIndexOfAfter(prefix.GetOr("index"), '.', suffix.GetOr("ts"));
  }

  // ---------------------------------------------------------------------------
  // Method names
  // ---------------------------------------------------------------------------

  /**
   * `parent?.name` as lodash's `camelCase` sees it: `camelCase` turns
   * `undefined` into the empty string before converting it.
   */
  function ParentName(m: Method): string {
    m.parent.GetOr("")
  }

  /** `createGraphqlMethodName`: the camel-cased service and method names joined by the combinator. */
  function CreateGraphqlMethodName(camelCase: string -> string, combinator: string, m: Method): (r: string)
    ensures r == camelCase(ParentName(m)) + combinator + camelCase(m.name)
  {
    AssembleNameNestingExample(camelCase(ParentName(m)), camelCase(m.name), combinator);
    AssembleName([Many([camelCase(ParentName(m)), camelCase(m.name)])], combinator)
  }

  /** The GraphQL name is the service part and the method part assembled as a name. */
  lemma GraphqlMethodNameIsAssembled(camelCase: string -> string, combinator: string, m: Method)
    ensures CreateGraphqlMethodName(camelCase, combinator, m)
         == AssembleName([Single(camelCase(ParentName(m))), Single(camelCase(m.name))], combinator)
  {
    AssembleNameNestingExample(camelCase(ParentName(m)), camelCase(m.name), combinator);
  }

  /** `createGqlMethodName`: an alias of `createGraphqlMethodName`. */
  function CreateGqlMethodName(camelCase: string -> string, combinator: string, m: Method): (r: string)
    ensures r == CreateGraphqlMethodName(camelCase, combinator, m)
    ensures r == camelCase(ParentName(m)) + combinator + camelCase(m.name)
  {
    CreateGraphqlMethodName(camelCase, combinator, m)
  }

  /** `createTypingMethodName`: the camel-cased method name. */
  function CreateTypingMethodName(camelCase: string -> string, m: Method): (r: string)
    ensures r == camelCase(m.name)
  {
    camelCase(m.name)
  }

  /** The typing name ignores the owning service: two methods with the same name get the same typing name. */
  lemma TypingMethodNameIgnoresParent(camelCase: string -> string, m: Method, n: Method)
    requires m.name == n.name
    ensures CreateTypingMethodName(camelCase, m) == CreateTypingMethodName(camelCase, n)
  {
  }

  /** The GraphQL name is scoped by the service: it begins with the service part and ends with the method part. */
  lemma GraphqlMethodNameIsScoped(camelCase: string -> string, combinator: string, m: Method)
    ensures var r, p := CreateGraphqlMethodName(camelCase, combinator, m), camelCase(ParentName(m)) + combinator;
      |p| <= |r| && r[..|p|] == p && r[|p|..] == camelCase(m.name)
  {
  }

  // ---------------------------------------------------------------------------
  // maybeQueryMethod / getRequestType
  // ---------------------------------------------------------------------------

  /**
   * ASCII upper-casing. It agrees with the case folding of a regular
   * expression with the `i` flag and without `u` (ECMAScript's
   * Canonicalize) on patterns made of ASCII letters: Canonicalize never
   * folds a character at or above 128 onto one below 128, so only ASCII
   * pairs can match the letters of `get` and `list`. It does not fold
   * other letters (such as `é` and `É`).
   */
  function Canonical(c: char): char {
    if 'a' <= c <= 'z' then (c as int - 32) as char else c
  }

  /** Whether `s` starts with `pattern` under case-insensitive matching. */
  predicate StartsWithIgnoringCase(s: string, pattern: string) {
    |pattern| <= |s| && forall i :: 0 <= i < |pattern| ==> Canonical(s[i]) == Canonical(pattern[i])
  }

  /** `maybeQueryMethod`: the test of `/^(get|list)/i` against the method name. */
  function MaybeQueryMethod(methodName: string): (r: bool)
    ensures r <==>
      (|methodName| >= 3 && methodName[0] in "gG" && methodName[1] in "eE" && methodName[2] in "tT")
      || (|methodName| >= 4 && methodName[0] in "lL" && methodName[1] in "iI"
          && methodName[2] in "sS" && methodName[3] in "tT")
  {
    StartsWithIgnoringCase(methodName, "get") || StartsWithIgnoringCase(methodName, "list")
  }

  /** `getRequestType`: `'query'` for a query-like name, `'mutation'` for every other. */
  function GetRequestType(methodName: string): (r: string)
    ensures r == "query" <==> MaybeQueryMethod(methodName)
    ensures r == "mutation" <==> !MaybeQueryMethod(methodName)
  {
    if MaybeQueryMethod(methodName) then "query" else "mutation"
  }

  /** The classification only looks at the start of the name. */
  lemma MaybeQueryMethodKeepsPrefix(methodName: string, rest: string)
    requires MaybeQueryMethod(methodName)
    ensures MaybeQueryMethod(methodName + rest)
  {
  }

  /** The name's ASCII letters in upper case. */
  function UpperAscii(s: string): (r: string)
    ensures |r| == |s| && forall i :: 0 <= i < |s| ==> r[i] == Canonical(s[i])
  {
    seq(|s|, i requires 0 <= i < |s| => Canonical(s[i]))
  }

  /** Changing the case of a name's letters does not change its classification. */
  lemma MaybeQueryMethodIgnoresCase(methodName: string)
    ensures MaybeQueryMethod(UpperAscii(methodName)) == MaybeQueryMethod(methodName)
  {
  }

  lemma MaybeQueryMethodExamples()
    ensures MaybeQueryMethod("getUser") && MaybeQueryMethod("ListOrders") && MaybeQueryMethod("GETx")
    ensures !MaybeQueryMethod("createUser") && !MaybeQueryMethod("DeleteOrder")
    ensures !MaybeQueryMethod("ge") && !MaybeQueryMethod("lis") && !MaybeQueryMethod("targetUser")
  {
  }

  // ---------------------------------------------------------------------------
  // assembleComment
  // ---------------------------------------------------------------------------

  /**
   * The argument of `assembleComment`: `null`, a string, or a configuration
   * object whose `comment` may be null, whose `label` may be null or
   * undefined (`None`) and whose `inline` may be undefined (`None`).
   */
  datatype CommentInfo =
    | Null
    | Text(text: string)
    | Config(comment: Option<string>, commentLabel: Option<string>, inline: Option<bool>)

  /** `comment.replace(/\n/g, '')`: every line feed removed. */
  function StripNewlines(s: string): (r: string)
    ensures '\n' !in r
    ensures |r| <= |s|
    ensures '\n' !in s ==> r == s
  {
    if s == [] then []
    else (if s[0] == '\n' then [] else [s[0]]) + StripNewlines(s[1..])
  }

  /**
   * `assembleComment`: starts from the defaults comment `''`, label `'//'`
   * and inline `false`, takes the comment from a string argument, and the
   * comment, label (`??` the default) and inline flag from a configuration.
   */
  function AssembleComment(info: CommentInfo, lineFeed: string): (r: string)
    ensures info.Null? ==> r == ""
    ensures info.Text? && info.text == "" ==> r == ""
    ensures info.Config? && (info.comment == None || info.comment == Some("")) ==> r == ""
    ensures info.Text? && info.text != "" ==> r == "//" + StripNewlines(info.text)
    ensures info.Config? && info.comment.Some? && info.comment.value != "" ==>
      r == info.commentLabel.GetOr("//") + StripNewlines(info.comment.value)
           + (if info.inline == Some(true) then lineFeed else "")
  {
    var defaultLabel := "//";
    var comment: Option<string> :=
      if info.Text? then Some(info.text)
      else if info.Config? then info.comment
      else Some("");
    var labelText := if info.Config? then info.commentLabel.GetOr(defaultLabel) else defaultLabel;
    var inline := info.Config? && info.inline == Some(true);
    if comment.Some? && comment.value != "" then
      labelText + StripNewlines(comment.value) + (if inline then lineFeed else "")
    else
      ""
  }

  lemma {:induction false} StripNewlinesConcat(a: string, b: string)
    ensures StripNewlines(a + b) == StripNewlines(a) + StripNewlines(b)
  {
    if a == [] {
      assert a + b == b;
    } else {
      assert (a + b)[0] == a[0] && (a + b)[1..] == a[1..] + b;
      StripNewlinesConcat(a[1..], b);
    }
  }

  /** Stripping keeps every other character, as often as it occurs. */
  lemma {:induction false} StripNewlinesKeepsOthers(s: string, c: char)
    requires c != '\n'
    ensures multiset(StripNewlines(s))[c] == multiset(s)[c]
  {
    if s != [] {
      assert s == [s[0]] + s[1..];
      StripNewlinesKeepsOthers(s[1..], c);
    }
  }

  /** A comment given as a string comes out on one line. */
  lemma TextCommentIsOneLine(s: string, lineFeed: string)
    ensures '\n' !in AssembleComment(Text(s), lineFeed)
  {
  }

  lemma StripNewlinesJoinsLines(first: string, second: string)
    requires '\n' !in first && '\n' !in second
    ensures StripNewlines(first + "\n" + second) == first + second
  {
    var nl := "\n";
    assert StripNewlines(nl) == [] by {
      assert nl[0] == '\n';
      assert nl[1..] == [];
    }
    StripNewlinesConcat(first, nl);
    StripNewlinesConcat(first + nl, second);
  }

  /** `assembleComment("line1\nline2")` is `"//line1line2"`: the two lines are joined. */
  lemma AssembleCommentJoinsLines(first: string, second: string, lineFeed: string)
    requires '\n' !in first && '\n' !in second
    ensures AssembleComment(Text(first + "\n" + second), lineFeed) == "//" + first + second
  {
    StripNewlinesJoinsLines(first, second);
  }

  /** An explicit empty label is kept rather than replaced by the default. */
  lemma AssembleCommentEmptyLabel(c: string, inline: Option<bool>, lineFeed: string)
    requires c != ""
    ensures AssembleComment(Config(Some(c), Some(""), inline), lineFeed)
         == StripNewlines(c) + (if inline == Some(true) then lineFeed else "")
  {
  }
}
