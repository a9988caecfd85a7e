/**
 * The GraphQL request builder of src/graphql/buildRequest.ts: one field
 * configuration per RPC method, sorted into a Query bucket and a Mutation
 * bucket, each bucket merged into one object type and printed.
 *
 * graphql-js's `printType`, lodash's `camelCase` and the constants
 * FILENAME_COMBINATOR, LINE_FEED and DEFAULT_REQUEST_PREFIX are supplied
 * through `Env` as arbitrary functions and strings.
 */
module BuildRequest {
  import opened Wrappers
  import opened Proto
  import opened Utils
  import opened FieldMap

  /** A graphql-js object or input-object type as built here: a name and an empty field map. */
  datatype GqlType = ObjectType(name: string) | InputObjectType(name: string)

  /** An argument configuration `{ type }`. */
  datatype Argument = Argument(argType: GqlType)

  /** A field configuration `{ type, description, args }`; `args` is `None` when the property is absent. */
  datatype FieldConfig = FieldConfig(
    fieldType: GqlType,
    description: Option<string>,
    args: Option<map<string, Argument>>)

  /** What the source throws when a method names a type that `root.lookup` does not find. */
  datatype BuildError = TypeNotFound(typeName: string)

  /** The collaborators the builder calls but this model does not define. */
  datatype Env = Env(
    camelCase: string -> string,
    combinator: string,
    lineFeed: string,
    requestPrefix: string,
    printType: (string, Fields<FieldConfig>) -> string)

  /** `assembleComment({ comment, label: '' }) || null`: the comment on one line, or null when nothing is left. */
  function Description(comment: Option<string>, lineFeed: string): (d: Option<string>)
    ensures d.None? <==> comment.None? || StripNewlines(comment.value) == ""
    ensures d.Some? ==> d.value == StripNewlines(comment.value) && '\n' !in d.value
  {
    var text := AssembleComment(Config(comment, Some(""), None), lineFeed);
    if text != "" then Some(text) else None
  }

  /**
   * `assembleRequestItem`: a single-entry field map for one method. The
   * response type is taken first, then the request type; a type that does
   * not resolve ends the build.
   */
  function AssembleRequestItem(env: Env, m: Method, root: Root): (r: Result<Fields<FieldConfig>, BuildError>)
    ensures r.Ok? <==> Resolves(root, m)
    ensures m.responseType !in root ==> r == Err(TypeNotFound(m.responseType))
    ensures m.responseType in root && m.requestType !in root ==> r == Err(TypeNotFound(m.requestType))
    ensures r.Ok? ==> |r.value| == 1 && r.value[0].key == CreateGraphqlMethodName(env.camelCase, env.combinator, m)
  {
    if m.responseType !in root then Err(TypeNotFound(m.responseType))
    else if m.requestType !in root then Err(TypeNotFound(m.requestType))
    else
      var requestObj := root[m.requestType];
      var returnType := ObjectType(root[m.responseType].fullName);
      var request := InputObjectType(requestObj.fullName);
      var baseRequestConfig := FieldConfig(returnType, Description(m.comment, env.lineFeed), None);
      var hasFields := requestObj.fieldCount > 0;
      var config :=
        if hasFields then baseRequestConfig.(args := Some(map[env.requestPrefix := Argument(request)]))
        else baseRequestConfig;
      Ok([Entry(CreateGraphqlMethodName(env.camelCase, env.combinator, m), config)])
  }

  /**
   * The one field of a method's map: the response type as an object type,
   * the description from the comment, and an argument under the request
   * prefix exactly when the request message declares a field.
   */
  lemma RequestItemField(env: Env, m: Method, root: Root)
    requires Resolves(root, m)
    ensures var r := AssembleRequestItem(env, m, root);
      var config := r.value[0].value;
      && Keys(r.value) == [CreateGraphqlMethodName(env.camelCase, env.combinator, m)]
      && config.fieldType == ObjectType(root[m.responseType].fullName)
      && config.description == Description(m.comment, env.lineFeed)
      && (config.args.Some? <==> root[m.requestType].fieldCount > 0)
      && (config.args.Some? ==>
            config.args.value == map[env.requestPrefix := Argument(InputObjectType(root[m.requestType].fullName))])
  {
    var r := AssembleRequestItem(env, m, root);
    assert Keys(r.value) == [r.value[0].key];
  }

  predicate AllResolve(root: Root, ms: seq<Method>) {
    forall m :: m in ms ==> Resolves(root, m)
  }

  /** The field map of a method whose types resolve. */
  function Item(env: Env, root: Root, m: Method): (r: Fields<FieldConfig>)
    requires Resolves(root, m)
    ensures |r| == 1 && r[0].key == CreateGraphqlMethodName(env.camelCase, env.combinator, m)
  {
    AssembleRequestItem(env, m, root).value
  }

  /** The methods that `maybeQueryMethod` sends to one bucket (`query` true: Query), in source order. */
  function Classified(ms: seq<Method>, query: bool): seq<Method> {
    if ms == [] then []
    else
      var init, last := ms[..|ms| - 1], ms[|ms| - 1];
      Classified(init, query) + (if MaybeQueryMethod(last.name) == query then [last] else [])
  }

  /** The field maps of the given methods, in order. */
  function Items(env: Env, root: Root, ms: seq<Method>): (r: seq<Fields<FieldConfig>>)
    requires AllResolve(root, ms)
    ensures |r| == |ms|
  {
    if ms == [] then []
    else
      Items(env, root, ms[..|ms| - 1]) + [Item(env, root, ms[|ms| - 1])]
  }

  /** The field maps of the methods that go into one bucket, in source order. */
  function Bucket(env: Env, root: Root, ms: seq<Method>, query: bool): seq<Fields<FieldConfig>>
    requires AllResolve(root, ms)
  {
    ClassifiedResolves(root, ms, query);
    Items(env, root, Classified(ms, query))
  }

  /** The map at position `i` is that of the method at position `i`. */
  lemma {:induction false} ItemsAt(env: Env, root: Root, ms: seq<Method>, i: nat)
    requires AllResolve(root, ms) && i < |ms|
    ensures Items(env, root, ms)[i] == Item(env, root, ms[i])
  {
    var init := ms[..|ms| - 1];
    if i < |init| {
      ItemsAt(env, root, init, i);
    }
  }

  /** The text `createGraphqlMethods` renders for a bucket. */
  function MethodsText(env: Env, bucket: seq<Fields<FieldConfig>>, typeName: string): string {
    if |bucket| == 0 then "" else env.printType(typeName, Merge(bucket))
  }

  /**
   * `createGraphqlMethods`: an empty bucket renders as the empty string;
   * otherwise the bucket's maps are merged into one by repeated
   * `Object.assign` and printed as the object type `typeName`.
   */
  method CreateGraphqlMethods(env: Env, methods: seq<Fields<FieldConfig>>, typeName: string)
    returns (text: string)
    ensures |methods| == 0 ==> text == ""
    ensures |methods| > 0 ==> text == env.printType(typeName, Merge(methods))
  {
    if |methods| == 0 {
      return "";
    }
    var fields: Fields<FieldConfig> := [];
    var i := 0;
    while i < |methods|
      invariant 0 <= i <= |methods|
      invariant fields == Merge(methods[..i])
    {
      assert methods[..i + 1][..i] == methods[..i];
      fields := Assign(fields, methods[i]);
      i := i + 1;
    }
    assert methods[..i] == methods;
    text := env.printType(typeName, fields);
  }

  /**
   * The `forEach` of `createGraphqlRequest`: builds each method's field map
   * in source order and pushes it into the Query or the Mutation bucket; the
   * first method whose types do not resolve aborts the build.
   */
  method FillBuckets(env: Env, methods: seq<Method>, root: Root)
    returns (out: Result<(seq<Fields<FieldConfig>>, seq<Fields<FieldConfig>>), BuildError>)
    ensures out.Ok? <==> AllResolve(root, methods)
    ensures out.Err? ==>
      exists i :: 0 <= i < |methods|
        && AssembleRequestItem(env, methods[i], root) == Err(out.error)
        && AllResolve(root, methods[..i])
    ensures out.Ok? ==>
      && out.value.0 == Bucket(env, root, methods, true)
      && out.value.1 == Bucket(env, root, methods, false)
  {
    var querys: seq<Fields<FieldConfig>> := [];
    var mutations: seq<Fields<FieldConfig>> := [];
    var i := 0;
    while i < |methods|
      invariant 0 <= i <= |methods|
      invariant AllResolve(root, methods[..i])
      invariant querys == Bucket(env, root, methods[..i], true)
      invariant mutations == Bucket(env, root, methods[..i], false)
    {
      var m := methods[i];
      var r := AssembleRequestItem(env, m, root);
      if r.Err? {
        assert m in methods && !Resolves(root, m);
        return Err(r.error);
      }
      RequestStep(env, root, methods, i, querys, mutations);
      if MaybeQueryMethod(m.name) {
        querys := querys + [r.value];
      } else {
        mutations := mutations + [r.value];
      }
      i := i + 1;
    }
    assert methods[..i] == methods;
    out := Ok((querys, mutations));
  }

  /**
   * `createGraphqlRequest`: fills the two buckets, then renders the Query
   * text and the Mutation text and joins them with two line feeds; a method
   * whose types do not resolve makes the whole build fail with its error.
   */
  method CreateGraphqlRequest(env: Env, info: ProtoInfo) returns (out: Result<string, BuildError>)
    ensures out.Ok? <==> AllResolve(info.root, info.methods)
    ensures out.Err? ==>
      exists i :: 0 <= i < |info.methods|
        && AssembleRequestItem(env, info.methods[i], info.root) == Err(out.error)
        && AllResolve(info.root, info.methods[..i])
    ensures out.Ok? ==> out.value == RequestText(env, info.root, info.methods)
  {
    var buckets := FillBuckets(env, info.methods, info.root);
    if buckets.Err? {
      return Err(buckets.error);
    }
    var (querys, mutations) := buckets.value;
    var queryText := CreateGraphqlMethods(env, querys, "Query");
    var mutationText := CreateGraphqlMethods(env, mutations, "Mutation");
    JoinBuckets(env, info.root, info.methods, queryText, mutationText);
    out := Ok(Join([queryText, mutationText], env.lineFeed + env.lineFeed));
  }

  /**
   * The text `createGraphqlRequest` returns when every method resolves: the
   * Query bucket's text, two line feeds, the Mutation bucket's text.
   */
  function RequestText(env: Env, root: Root, ms: seq<Method>): string
    requires AllResolve(root, ms)
  {
    var separator := env.lineFeed + env.lineFeed;
    MethodsText(env, Bucket(env, root, ms, true), "Query")
    + separator
    + MethodsText(env, Bucket(env, root, ms, false), "Mutation")
  }

  lemma JoinBuckets(env: Env, root: Root, ms: seq<Method>, queryText: string, mutationText: string)
    requires AllResolve(root, ms)
    requires queryText == MethodsText(env, Bucket(env, root, ms, true), "Query")
    requires mutationText == MethodsText(env, Bucket(env, root, ms, false), "Mutation")
    ensures Join([queryText, mutationText], env.lineFeed + env.lineFeed) == RequestText(env, root, ms)
  {
    JoinTwo(queryText, mutationText, env.lineFeed + env.lineFeed);
  }

  lemma ClassifiedAppend(ms: seq<Method>, m: Method, query: bool)
    ensures Classified(ms + [m], query)
         == Classified(ms, query) + (if MaybeQueryMethod(m.name) == query then [m] else [])
  {
    assert (ms + [m])[..|ms|] == ms;
  }

  /** A bucket holds only methods of the service that belong in it. */
  lemma {:induction false} ClassifiedMembers(ms: seq<Method>, query: bool)
    ensures forall m :: m in Classified(ms, query) ==> m in ms && MaybeQueryMethod(m.name) == query
  {
    if ms != [] {
      var init := ms[..|ms| - 1];
      ClassifiedMembers(init, query);
      assert forall m :: m in init ==> m in ms;
    }
  }

  lemma ClassifiedResolves(root: Root, ms: seq<Method>, query: bool)
    requires AllResolve(root, ms)
    ensures AllResolve(root, Classified(ms, query))
  {
    ClassifiedMembers(ms, query);
  }

  lemma ItemsAppend(env: Env, root: Root, ms: seq<Method>, m: Method)
    requires AllResolve(root, ms) && Resolves(root, m)
    ensures Items(env, root, ms + [m]) == Items(env, root, ms) + [Item(env, root, m)]
  {
    assert (ms + [m])[..|ms|] == ms;
  }

  lemma PrefixResolves(root: Root, ms: seq<Method>, i: nat)
    requires i < |ms| && AllResolve(root, ms[..i]) && Resolves(root, ms[i])
    ensures AllResolve(root, ms[..i + 1])
  {
    assert ms[..i + 1] == ms[..i] + [ms[i]];
  }

  /** One step of the `forEach`: the next method's map joins the end of its bucket. */
  lemma BucketStep(env: Env, root: Root, ms: seq<Method>, i: nat, query: bool)
    requires i < |ms| && AllResolve(root, ms[..i + 1])
    ensures Bucket(env, root, ms[..i + 1], query)
         == Bucket(env, root, ms[..i], query)
            + (if MaybeQueryMethod(ms[i].name) == query then [Item(env, root, ms[i])] else [])
  {
    var init, m := ms[..i], ms[i];
    assert ms[..i + 1] == init + [m];
    assert AllResolve(root, init) && Resolves(root, m) by {
      assert forall x :: x in init ==> x in ms[..i + 1];
      assert m in ms[..i + 1];
    }
    ClassifiedAppend(init, m, query);
    var before := Classified(init, query);
    ClassifiedResolves(root, init, query);
    if MaybeQueryMethod(m.name) == query {
      assert Classified(ms[..i + 1], query) == before + [m];
      ItemsAppend(env, root, before, m);
    } else {
      assert Classified(ms[..i + 1], query) == before;
    }
  }

  /** The loop invariant of `createGraphqlRequest` carried over one method that resolves. */
  lemma RequestStep(env: Env, root: Root, ms: seq<Method>, i: nat,
                    querys: seq<Fields<FieldConfig>>, mutations: seq<Fields<FieldConfig>>)
    requires i < |ms| && AllResolve(root, ms[..i]) && Resolves(root, ms[i])
    requires querys == Bucket(env, root, ms[..i], true)
    requires mutations == Bucket(env, root, ms[..i], false)
    ensures AllResolve(root, ms[..i + 1])
    ensures AssembleRequestItem(env, ms[i], root) == Ok(Item(env, root, ms[i]))
    ensures MaybeQueryMethod(ms[i].name) ==>
      && querys + [Item(env, root, ms[i])] == Bucket(env, root, ms[..i + 1], true)
      && mutations == Bucket(env, root, ms[..i + 1], false)
    ensures !MaybeQueryMethod(ms[i].name) ==>
      && querys == Bucket(env, root, ms[..i + 1], true)
      && mutations + [Item(env, root, ms[i])] == Bucket(env, root, ms[..i + 1], false)
  {
    PrefixResolves(root, ms, i);
    BucketStep(env, root, ms, i, true);
    BucketStep(env, root, ms, i, false);
  }

  // ---------------------------------------------------------------------------
  // Properties of the buckets
  // ---------------------------------------------------------------------------

  /** Every method lands in exactly one bucket. */
  lemma {:induction false} ClassifiedPartition(ms: seq<Method>)
    ensures multiset(Classified(ms, true)) + multiset(Classified(ms, false)) == multiset(ms)
  {
    if ms != [] {
      var init, last := ms[..|ms| - 1], ms[|ms| - 1];
      ClassifiedPartition(init);
      assert ms == init + [last];
      var queries, mutations := Classified(init, true), Classified(init, false);
      if MaybeQueryMethod(last.name) {
        assert Classified(ms, true) == queries + [last] && Classified(ms, false) == mutations;
        assert multiset(queries + [last]) == multiset(queries) + multiset{last};
      } else {
        assert Classified(ms, true) == queries && Classified(ms, false) == mutations + [last];
        assert multiset(mutations + [last]) == multiset(mutations) + multiset{last};
      }
      assert multiset(ms) == multiset(init) + multiset{last};
    }
  }

  /** Sorting keeps source order: the buckets of consecutive runs of methods are concatenated. */
  lemma {:induction false} ClassifiedConcat(a: seq<Method>, b: seq<Method>, query: bool)
    ensures Classified(a + b, query) == Classified(a, query) + Classified(b, query)
    decreases |b|
  {
    if b == [] {
      assert a + b == a;
    } else {
      assert (a + b)[..|a + b| - 1] == a + b[..|b| - 1];
      assert (a + b)[|a + b| - 1] == b[|b| - 1];
      ClassifiedConcat(a, b[..|b| - 1], query);
    }
  }

  /** The GraphQL names of the given methods, in order. */
  function MethodNames(env: Env, ms: seq<Method>): (names: seq<string>)
    ensures |names| == |ms|
    ensures forall i :: 0 <= i < |ms| ==> names[i] == CreateGraphqlMethodName(env.camelCase, env.combinator, ms[i])
  {
    if ms == [] then []
    else MethodNames(env, ms[..|ms| - 1]) + [CreateGraphqlMethodName(env.camelCase, env.combinator, ms[|ms| - 1])]
  }

  lemma {:induction false} ItemsKeys(env: Env, root: Root, ms: seq<Method>)
    requires AllResolve(root, ms)
    ensures ConcatKeys(Items(env, root, ms)) == MethodNames(env, ms)
  {
    if ms != [] {
      var init, last := ms[..|ms| - 1], ms[|ms| - 1];
      var items := Items(env, root, ms);
      ItemsKeys(env, root, init);
      assert items[..|items| - 1] == Items(env, root, init);
      var item := Item(env, root, last);
      assert Keys(item) == [item[0].key];
    }
  }

  /** Each method's map has the method's GraphQL name as its one key. */
  lemma ItemsHaveNames(env: Env, root: Root, ms: seq<Method>)
    requires AllResolve(root, ms)
    ensures |Items(env, root, ms)| == |MethodNames(env, ms)|
    ensures forall i :: 0 <= i < |ms| ==> Keys(Items(env, root, ms)[i]) == [MethodNames(env, ms)[i]]
  {
    forall i | 0 <= i < |ms|
      ensures Keys(Items(env, root, ms)[i]) == [MethodNames(env, ms)[i]]
    {
      ItemsAt(env, root, ms, i);
      var item := Item(env, root, ms[i]);
      assert Keys(item) == [item[0].key];
    }
  }

  /**
   * The type a bucket prints has one field per distinct GraphQL method name,
   * in the order in which the names first occur among the bucket's methods.
   */
  lemma BucketFieldNames(env: Env, root: Root, ms: seq<Method>, query: bool)
    requires AllResolve(root, ms)
    ensures Keys(Merge(Bucket(env, root, ms, query)))
         == FirstOccurrences(MethodNames(env, Classified(ms, query)))
  {
    ClassifiedResolves(root, ms, query);
    ItemsKeys(env, root, Classified(ms, query));
  }

  /** Merging maps of one entry each: the keys are the entries' keys. */
  lemma SingletonsDomain<V>(items: seq<Fields<V>>, names: seq<string>, k: string)
    requires |items| == |names|
    requires forall i :: 0 <= i < |items| ==> Keys(items[i]) == [names[i]]
    ensures k in AsMap(Merge(items)) <==> k in names
  {
    MergeDomain(items, k);
    if k in AsMap(Merge(items)) {
      var i :| 0 <= i < |items| && k in Keys(items[i]);
      assert Keys(items[i]) == [names[i]];
      assert names[i] in names;
    }
    if k in names {
      var i :| 0 <= i < |names| && names[i] == k;
      assert Keys(items[i]) == [names[i]];
      assert k in Keys(items[i]);
    }
  }

  /** Merging maps of one entry each: a key holds the value of its last entry. */
  lemma SingletonsLastWins<V>(items: seq<Fields<V>>, names: seq<string>, j: nat)
    requires |items| == |names| && j < |items|
    requires forall i :: 0 <= i < |items| ==> Keys(items[i]) == [names[i]]
    requires forall i :: j < i < |items| ==> names[i] != names[j]
    ensures names[j] in AsMap(Merge(items)) && AsMap(Merge(items))[names[j]] == items[j][0].value
  {
    forall i | 0 <= i < |items|
      ensures AsMap(items[i]) == map[names[i] := items[i][0].value]
    {
      assert items[i][..0] == [];
    }
    MergeLastWins(items, j, names[j]);
  }

  /**
   * Merging the maps of a run of methods (a bucket is one): each field holds
   * the configuration of the last method with that GraphQL name (last write
   * wins).
   */
  lemma MergedFieldValue(env: Env, root: Root, ms: seq<Method>, j: nat)
    requires AllResolve(root, ms) && j < |ms|
    requires forall i :: j < i < |ms| ==> MethodNames(env, ms)[i] != MethodNames(env, ms)[j]
    ensures var fields := AsMap(Merge(Items(env, root, ms)));
      MethodNames(env, ms)[j] in fields && fields[MethodNames(env, ms)[j]] == Item(env, root, ms[j])[0].value
  {
    ItemsHaveNames(env, root, ms);
    ItemsAt(env, root, ms, j);
    SingletonsLastWins(Items(env, root, ms), MethodNames(env, ms), j);
  }

  /** A field name is in a bucket's type exactly when some method of the bucket derives it. */
  lemma BucketFieldDomain(env: Env, root: Root, ms: seq<Method>, query: bool, k: string)
    requires AllResolve(root, ms)
    ensures k in AsMap(Merge(Bucket(env, root, ms, query))) <==> k in MethodNames(env, Classified(ms, query))
  {
    var cs := Classified(ms, query);
    ClassifiedResolves(root, ms, query);
    ItemsHaveNames(env, root, cs);
    SingletonsDomain(Items(env, root, cs), MethodNames(env, cs), k);
  }

  /** A service without query-like methods prints no Query type. */
  lemma {:induction false} NoQueryMethodsNoQueryType(env: Env, root: Root, ms: seq<Method>)
    requires AllResolve(root, ms)
    requires forall m :: m in ms ==> !MaybeQueryMethod(m.name)
    ensures Classified(ms, true) == []
    ensures MethodsText(env, Bucket(env, root, ms, true), "Query") == ""
  {
    if ms != [] {
      var init := ms[..|ms| - 1];
      assert forall m :: m in init ==> m in ms;
      NoQueryMethodsNoQueryType(env, root, init);
      assert ms[|ms| - 1] in ms;
    }
  }

  /** Without query-like methods the output starts with the two line feeds, followed by the Mutation type. */
  lemma NoQueryMethodsOutput(env: Env, root: Root, ms: seq<Method>)
    requires AllResolve(root, ms)
    requires forall m :: m in ms ==> !MaybeQueryMethod(m.name)
    ensures RequestText(env, root, ms)
         == env.lineFeed + env.lineFeed + MethodsText(env, Bucket(env, root, ms, false), "Mutation")
  {
    NoQueryMethodsNoQueryType(env, root, ms);
  }

  lemma WidgetBuckets(get: Method, create: Method)
    requires get.name == "getWidget" && create.name == "createWidget"
    ensures Classified([get, create], true) == [get]
    ensures Classified([get, create], false) == [create]
  {
    WidgetNames();
    var none: seq<Method> := [];
    ClassifiedAppend(none, get, true);
    ClassifiedAppend(none, get, false);
    ClassifiedAppend([get], create, true);
    ClassifiedAppend([get], create, false);
    assert none + [get] == [get] && [get] + [create] == [get, create];
  }

  lemma WidgetNames()
    ensures MaybeQueryMethod("getWidget") && !MaybeQueryMethod("createWidget")
  {
  }

  /** A bucket of one method holds that method's map. */
  lemma ItemsOne(env: Env, root: Root, m: Method)
    requires Resolves(root, m)
    ensures Items(env, root, [m]) == [Item(env, root, m)]
  {
    var one: seq<Method> := [m];
    assert one[..0] == [];
  }

  /**
   * A service with the methods `getWidget` and `createWidget` prints a Query
   * type holding the first and a Mutation type holding the second.
   */
  lemma WidgetExample(env: Env, root: Root, get: Method, create: Method)
    requires get.name == "getWidget" && create.name == "createWidget"
    requires Resolves(root, get) && Resolves(root, create)
    ensures MethodsText(env, Bucket(env, root, [get, create], true), "Query")
         == env.printType("Query", Item(env, root, get))
    ensures MethodsText(env, Bucket(env, root, [get, create], false), "Mutation")
         == env.printType("Mutation", Item(env, root, create))
  {
    WidgetBuckets(get, create);
    ItemsOne(env, root, get);
    ItemsOne(env, root, create);
    MergeOne(Item(env, root, get));
    MergeOne(Item(env, root, create));
  }

  /** A bucket of one field map prints that map. */
  lemma MergeOne(item: Fields<FieldConfig>)
    requires |item| == 1
    ensures Merge([item]) == item
  {
    var one: seq<Fields<FieldConfig>> := [item];
    assert one[..0] == [];
    assert item[..0] == [];
  }
}
