# proto-converter: naming, classification and GraphQL request building

This project models the core of proto-converter, a tool that turns the RPC
methods of a protobuf service into GraphQL and TypeScript source. Two parts
are modelled:

- the shared helpers of `src/utils/index.ts`:
  - `assembleName` and `createFileName`;
  - the method-name builders `createGraphqlMethodName`, `createGqlMethodName` and `createTypingMethodName`;
  - the query/mutation classifier `maybeQueryMethod` and `getRequestType`;
  - the comment normaliser `assembleComment`.
- the GraphQL request builder of `src/graphql/buildRequest.ts`:
  - `assembleRequestItem` builds one single-entry field map per method;
  - `createGraphqlRequest` walks the methods in order and pushes each map into a Query or a Mutation bucket;
  - `createGraphqlMethods` merges a bucket with `Object.assign` and prints it.

The files:

- `wrappers.dfy`: `Option` and `Result`.
- `proto.dfy`: the parts of a protobufjs service the builders read:
  - a `Method` with its name, owning service, request and response type names and comment;
  - the namespace root, as a map from type name to full name and field count.
- `utils.dfy`: the helpers of `src/utils/index.ts`, as pure functions.
- `field_map.dfy`: a JavaScript plain object as an insertion-ordered list of entries with unique keys:
  - assigning to an existing key replaces its value in place;
  - assigning a new key appends it;
  - `Object.assign` and the `reduce` over it are built from that.
- `build_request.dfy`: the request builder. The two loops of the source are methods with loop invariants:
  - `CreateGraphqlMethods` is the `reduce`;
  - `FillBuckets` is the `forEach`.
  Each is proved against a specification function, and the bucket properties are lemmas about those functions.

The collaborators the core calls are parameters of the model, not definitions in it:

- lodash `camelCase`: an arbitrary `string -> string`.
- graphql-js `printType` of an object type: an arbitrary function of the type name and the ordered field map.
- protobufjs `root.lookup`, together with the project's own `fullTypeName` (from `src/utils/proto`, which is not part of this model): a map lookup.
- the constants `FILENAME_COMBINATOR`, `LINE_FEED` and `DEFAULT_REQUEST_PREFIX`: arbitrary strings.

In `BuildRequest` all of these are gathered in `Env`.

Where the documented behaviour and the code differ, the model follows the code:

- The description of a request field is null not only when the comment is null or empty, but also when it consists only of line feeds. `assembleComment` then returns `''`, and `'' || null` is null (`BuildRequest.Description`).
- The two line feeds between the Query and Mutation texts are always present, even when a bucket is empty, because `join` puts the separator between the two elements whatever they hold (`BuildRequest.RequestText`, `BuildRequest.NoQueryMethodsOutput`).
- A method with no owning service gets the name `combinator + camelCase(name)`. `parent?.name` is `undefined`, and lodash `camelCase` turns it into `''` (`Utils.ParentName`).

## Model

| member | source | states |
|---|---|---|
| Utils.AssembleName | src/utils/index.ts:35-36 | no parts give the empty name; a single part is the name itself |
| Utils.AssembleNameFlattenIsTransparent | src/utils/index.ts:35-36 | the name of any mix of strings and string arrays equals the name of the flattened strings passed one by one |
| Utils.AssembleNameNestingExample | src/utils/index.ts:35-36 | `(["a"], "b")`, `(["a", "b"])` and `("a", "b")` all give `a + combinator + b` |
| Utils.AssembleNameConcat | src/utils/index.ts:35-36 | the name of two non-empty groups of arguments is the two groups' names joined by the combinator |
| Utils.AssembleNameLength | src/utils/index.ts:35-36 | the name's length is the parts' total length plus one combinator per gap between parts |
| Utils.CreateFileName | src/utils/index.ts:52-53 | the result is the prefix (default `index`), a dot, then the suffix (default `ts`) |
| Utils.CreateFileNameDefaults | src/utils/index.ts:52-53 | with no arguments the file name is `index.ts` |
| Utils.CreateFileNameSplits | src/utils/index.ts:49-53 | when the suffix has no dot, splitting at the last dot gives back the prefix and the suffix |
| Utils.CreateGraphqlMethodName | src/utils/index.ts:119-120 | the name is camelCase of the service name, the combinator, then camelCase of the method name |
| Utils.GraphqlMethodNameIsAssembled | src/utils/index.ts:119-120 | the name equals `assembleName` of the two camel-cased parts |
| Utils.GraphqlMethodNameIsScoped | src/utils/index.ts:119-120 | the name begins with the service part and the combinator and ends with the method part |
| Utils.CreateGqlMethodName | src/utils/index.ts:122-123 | gives exactly the name `createGraphqlMethodName` gives |
| Utils.CreateTypingMethodName | src/utils/index.ts:125-126 | the typing name is camelCase of the method name |
| Utils.TypingMethodNameIgnoresParent | src/utils/index.ts:125-126 | two methods with the same name get the same typing name whatever their service |
| Utils.MaybeQueryMethod | src/utils/index.ts:128-130 | true exactly when the name starts with `get` or `list` in any mix of letter case |
| Utils.MaybeQueryMethodKeepsPrefix | src/utils/index.ts:128-130 | only the start of the name matters: extending a query-like name keeps it query-like |
| Utils.MaybeQueryMethodIgnoresCase | src/utils/index.ts:128-130 | upper-casing the name's ASCII letters does not change the classification |
| Utils.MaybeQueryMethodExamples | src/utils/index.ts:128-130 | `getUser`, `ListOrders` and `GETx` are query-like; `createUser`, `DeleteOrder`, `ge`, `lis` and `targetUser` are not |
| Utils.GetRequestType | src/utils/index.ts:132-133 | `query` exactly when the name is query-like, `mutation` exactly when it is not |
| Utils.StripNewlines | src/utils/index.ts:157 | the result has no line feed and is no longer than the input; text without a line feed is unchanged |
| Utils.StripNewlinesKeepsOthers | src/utils/index.ts:157 | every character other than a line feed occurs as often as in the input |
| Utils.AssembleComment | src/utils/index.ts:141-158 | null, `''` and a configuration with a null or empty comment give `''`; otherwise the label (`//` for a string, `label ?? '//'` for a configuration), the comment without line feeds, and LINE_FEED only when `inline` is true |
| Utils.TextCommentIsOneLine | src/utils/index.ts:148-157 | a comment given as a string comes out without a line feed |
| Utils.AssembleCommentJoinsLines | src/utils/index.ts:156-158 | a two-line string comment becomes `//` followed by the two lines run together |
| Utils.AssembleCommentEmptyLabel | src/utils/index.ts:151-157 | an explicit empty label is kept, so the result starts with the comment itself |
| FieldMap.Put | src/graphql/buildRequest.ts:28 | keys stay unique; the object now maps the key to the value and nothing else changes; a new key goes last and an existing key keeps its place |
| FieldMap.Assign | src/graphql/buildRequest.ts:28 | keys stay unique; the result is the target's map updated with the source's map; new keys follow in the source's order |
| FieldMap.Merge | src/graphql/buildRequest.ts:27-29 | keys are unique, and they are all the items' keys in order of first occurrence |
| FieldMap.MergeDomain | src/graphql/buildRequest.ts:27-29 | a key is in the merged object exactly when some item has it |
| FieldMap.MergeLastWins | src/graphql/buildRequest.ts:27-29 | a key holds the value of the last item that has it |
| BuildRequest.Description | src/graphql/buildRequest.ts:50 | null exactly when the comment is null or nothing is left once line feeds are removed; otherwise the comment without line feeds |
| BuildRequest.AssembleRequestItem | src/graphql/buildRequest.ts:37-61 | succeeds exactly when both types resolve; an unresolved response type is reported before an unresolved request type; success gives one entry keyed by the GraphQL method name |
| BuildRequest.RequestItemField | src/graphql/buildRequest.ts:39-60 | the field's type is the response type's full name, its description is `Description` of the comment, and `args` is present exactly when the request type has fields, holding only the request prefix bound to the request type's full name |
| BuildRequest.CreateGraphqlMethods | src/graphql/buildRequest.ts:22-35 | an empty bucket gives `''`; otherwise the merge of the bucket's maps is printed as the given type |
| BuildRequest.FillBuckets | src/graphql/buildRequest.ts:64-70 | succeeds exactly when every method resolves; a failure is the error of a method all of whose predecessors resolve; on success the buckets hold the maps of the query-like and of the other methods, in source order |
| BuildRequest.CreateGraphqlRequest | src/graphql/buildRequest.ts:63-75 | succeeds exactly when every method resolves, fails with the first failing method's error, and otherwise returns the Query text, two line feeds and the Mutation text |
| BuildRequest.ClassifiedMembers | src/graphql/buildRequest.ts:67-70 | a bucket holds only methods of the service whose classification matches the bucket |
| BuildRequest.ClassifiedPartition | src/graphql/buildRequest.ts:67-70 | the two buckets together hold every method exactly as often as the service does |
| BuildRequest.ClassifiedConcat | src/graphql/buildRequest.ts:67-70 | a bucket keeps source order: the bucket of two runs of methods is the first run's bucket followed by the second's |
| BuildRequest.BucketStep | src/graphql/buildRequest.ts:67-70 | handling the next method appends its map to the end of its own bucket and leaves the other bucket as it was |
| BuildRequest.ItemsKeys | src/graphql/buildRequest.ts:58-60 | the keys of a run of methods' maps are the methods' GraphQL names, in order |
| BuildRequest.BucketFieldNames | src/graphql/buildRequest.ts:27-29 | a bucket's type has one field per distinct GraphQL name among its methods, in order of first occurrence |
| BuildRequest.BucketFieldDomain | src/graphql/buildRequest.ts:27-29 | a name is a field of a bucket's type exactly when some method in the bucket has it as GraphQL name |
| BuildRequest.MergedFieldValue | src/graphql/buildRequest.ts:27-29 | a field holds the configuration of the last method with that GraphQL name |
| BuildRequest.NoQueryMethodsNoQueryType | src/graphql/buildRequest.ts:26 | without query-like methods the Query bucket is empty and its text is `''` |
| BuildRequest.NoQueryMethodsOutput | src/graphql/buildRequest.ts:71-74 | without query-like methods the output is the two line feeds followed by the Mutation text |
| BuildRequest.WidgetExample | src/graphql/buildRequest.ts:63-75 | for `getWidget` and `createWidget`, the Query type prints the first's map and the Mutation type the second's |

## Left out

- I/O and process helpers of `src/utils/index.ts` are not modelled, because they only drive the shell, the file system or the process: `getPrettierConfig`, `formatCode`, `quitProcess`, `doesPathExist`, `pathCheck`, `execUnderDir`, `touchFile`, `createFileWithSource` and `getBasicProtoConfig`.
- `src/cli.ts` and `src/index.ts` are not modelled. They do interactive prompting and asynchronous orchestration. The dispatcher they use is not part of this model.
- lodash `camelCase`, graphql-js `printType` and `GraphQLObjectType`, and protobufjs `lookup` are inputs of the model, not re-implementations. So are `fullTypeName` and `getMethods`, which `src/utils/index.ts` re-exports from `src/utils/proto`, a file that is not part of this model. Properties that depend on their internals are not stated.
- `FILENAME_COMBINATOR`, `LINE_FEED` and `DEFAULT_REQUEST_PREFIX` are defined in files that are not part of this model. They are arbitrary strings here.
- When a type name does not resolve, `root.lookup` returns null. For the request type, the access to `.fields` then throws. For the response type, the model assumes that `fullTypeName` of a null lookup throws; its body is in a file not modelled. Both cases become an `Err(TypeNotFound(name))` result, with the response type reported first. The model does not say which JavaScript error is thrown or what its message is.
- JavaScript enumerates integer-like keys (such as `"1"`) before other keys, whatever order they were inserted in. The field map model keeps plain insertion order, since GraphQL method names are identifiers.
- `isEmpty` on the request type's `fields` is modelled as a field count greater than zero.
- `assembleComment` with a configuration whose `inline` is any truthy value other than `true` is not modelled, since `inline` is typed `boolean`.
- The regular expression `/^(get|list)/i` folds case as ECMAScript does without the `u` flag. The model folds only ASCII letters, because no character at or above 128 folds onto one of the letters of `get` or `list`.
