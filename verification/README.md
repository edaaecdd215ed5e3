# AlphaFlow core in Dafny

AlphaFlow is a workflow engine. A workflow is a graph of typed nodes joined by connections; running it walks the graph breadth-first, merges the outputs of each node's parents into its input, maps that input through templates and executes the node. Around this sit five parts, each modelled here one Dafny module per source file:

- **Workflow layer** (`alphaflow-workflow`):
  - `Workflow` (`workflow.dfy`) keeps two connection indexes, by source and by destination, and their consistency invariant. Its `run` is proved against a breadth-first reference run.
  - `DirectedGraph` (`directed_graph.dfy`, with path lemmas in `graph_paths.dfy`) provides roots, leaves, a Kahn topological sort, reachability, node removal with reconnection, rename, and the round trip through the workflow form.
  - `WaitingQueue` (`waiting_queue.dfy`) is also modelled.
  - So are the two data-mapping modules: `{{ ... }}` interpolation with `$json` / `$node` paths (`json_expression.dfy`), and `transformation.dfy` for input/output paths, `set_nested_value` and object merge.
- **Nodes** (`alphaflow-nodes`): the `Node` record and its builders (`node.dfy`), the `NodeRegistry` (`registry.dfy`), and the HTTP and OpenAI parameter validators (`http_params.dfy`, `openai_params.dfy`).
- **JMESPath engine** (`alphaflow-jmes`):
  - the values, tokens and syntax tree (`jmes_ast.dfy`);
  - the Pratt parser over a token queue, as a class (`jmes_parser.dfy`);
  - the tree-walking interpreter (`jmes_interpreter.dfy`);
  - the mapping-template applier (`jmes_expression.dfy`);
  - the custom `uppercase`, `split` and `concat` functions and `compile_and_search` (`jmes_runtime.dfy`).
- **Task engine** (`alphaflow-engine`):
  - the service-level and pending-task orderings and the task record (`task_model.dfy`);
  - `TaskStore`, a map plus a 32-bit id counter (`task_store.dfy`);
  - `TaskQueue`, per-handler task lists held in a binary heap, modelled as the heap array with its sift operations (`task_queue.dfy`);
  - `Orchestrator` (`orchestrator.dfy`);
  - the task-state transitions of `TaskDispatcher` (`task_dispatcher.dfy`).
- **Build tool** (`build-tool/alphaflow-ast`), the derive-macro front end:
  - the `ASTResult` error accumulator (`ctxt.dfy`);
  - a small model of the `syn` syntax tree (`syn_model.dfy`);
  - the type classifier `parse_ty` (`ty_ext.dfy`);
  - the `#[pb]`, `#[node]` and `#[event]` attribute readers (`pb_attrs.dfy`, `node_attrs.dfy`, `event_attrs.dfy`);
  - the container/field builder (`ast_container.dfy`).

Shared helpers are `wrappers.dfy` (Option, Result), `strings.dfy` (the `str` operations the code uses: trim, split, join, find, `usize` parsing, key order) and `json.dfy` (JSON values and their text).

The modelling follows the source's own form:

- Objects whose methods update their fields are classes with `modifies` clauses: `Workflow`, `DirectedGraph`, `WaitingQueue`, `NodeRegistry`, `TaskStore`, `TaskQueue`, `Orchestrator`, `TaskDispatcher`, the JMESPath `Parser`, `ASTResult`, `ASTAttr` and `BoolAttr`.
- Loops that update state step by step (the queue, graph, registry and workflow operations, the parser's scans) are loops here. Each such loop is proved against a specification function, and the properties are proved about that function. Loops that only build a value are recursive functions instead: the template walk of `apply_template` (`TemplateFields`, `TemplateItems`) and the interpreter's projection, flatten, multi-list and multi-hash arms (`Projected`, `Flattened`, `Listed`, `Hashed`).
- Expression-level code is functions and lemmas.

Where the source leaves something to another component, the model takes it as a parameter:
- node execution;
- the JMESPath query used by the workflow;
- the lexer and token binding powers;
- the builtin JMESPath functions;
- syn's parsers used by the build tool: which literals parse as a type, as a path expression (`syn::ExprPath`) and as a plain path (`syn::Path`), as three separate predicates.

Where the source iterates a `HashMap`, results are stated as sets or permutations, or the order is fixed to the one serde_json uses (ascending keys).

Observations about the code that the model keeps as written:

- `TaskQueue::push` onto a handler that already has a list changes that list's head while the list sits inside the outer heap, and does not re-sift it. The next pop therefore need not yield the highest-ranked task across handlers: `TaskQueue.StaleHeapOrder` exhibits a queue where a user-interactive task waits behind a background one. Per list, the pop does yield that list's highest-ranked task (`TaskQueue.TaskQueue.PopHead`).
- `PendingTask` equality compares ids only, while its order compares service level first (`TaskModel.EqualityIgnoresQos`).
- `Workflow::run` keeps no visited set: a node reachable by k paths runs k times, and a cyclic graph never stops. The model runs with a fuel bound.
- `NodeRegistry::register` silently replaces an entry of the same name.
- Two tests disagree with the code, and the model follows the code:
  - The test at `node_attrs.rs:180-181` uses the keys `get_node_value_with` / `set_node_value_with`, which the code reports as unknown (`NodeAttrs.LongValueKeysUnknown`).
  - The test at `event_attrs.rs:322` expects one error where a bare `#[event]` also records "expected #[event(...)]" (`EventAttrs.NonIntDiscriminantWithBareEvent`).
- `fields_from_ast` tells an unannotated field from a failed one by looking for the word "unrecognizable" in the rejection message. A field whose own name contains that word and whose type is not classified is therefore dropped without an error (`AstContainer.UnrecognizableNameHidesError`). A field whose type fails is reported three times (`AstContainer.FailedTypeReportedThrice`).
- The code has no retries, rate limits, error-branch connections, static-data stores or rename propagation into expressions, and none is modelled.
- The key pattern of `json_expression.rs` takes any Unicode decimal digit for `\d`, while `parse::<usize>` takes ASCII digits only. A key such as `[١]` is therefore matched and reads the object field "١" (`JsonExpression.OtherDigitsKey`).

## Model

| member | source | states |
|---|---|---|
| Ctxt.ASTResult.constructor | alphaflow/backend/build-tool/alphaflow-ast/src/ctxt.rs:21-26 | a new collector holds no errors and is unchecked |
| Ctxt.ASTResult.PushError | alphaflow/backend/build-tool/alphaflow-ast/src/ctxt.rs:29-31 | the error is appended after all earlier ones; the checked flag is untouched |
| Ctxt.ASTResult.PushSpanned | alphaflow/backend/build-tool/alphaflow-ast/src/ctxt.rs:34-38 | a new error carrying the message is appended |
| Ctxt.ASTResult.ErrorSpannedBy | alphaflow/backend/build-tool/alphaflow-ast/src/ctxt.rs:41-43 | behaves as `push_spanned`: the message is appended |
| Ctxt.ASTResult.PushSynError | alphaflow/backend/build-tool/alphaflow-ast/src/ctxt.rs:46-48 | behaves as `push_error`: the error is appended |
| Ctxt.ASTResult.Check | alphaflow/backend/build-tool/alphaflow-ast/src/ctxt.rs:53-65 | marks the collector checked and empties it; `Ok` exactly when nothing was pushed, otherwise every pushed error in push order |
| Ctxt.FreshIsOk | alphaflow/backend/build-tool/alphaflow-ast/src/ctxt.rs:90-96 | a collector with nothing pushed checks to `Ok` |
| Ctxt.OnePush | alphaflow/backend/build-tool/alphaflow-ast/src/ctxt.rs:68-82 | one pushed message: the collector warns on drop before `check`, `check` returns exactly that error, and it no longer warns afterwards |
| Ctxt.PushOrder | alphaflow/backend/build-tool/alphaflow-ast/src/ctxt.rs:98-148 | errors pushed through `push_error`, `push_spanned` and `syn_error` come back together, in push order |
| TyExt.TypeArgs | alphaflow/backend/build-tool/alphaflow-ast/src/ty_ext.rs:102-114 | the type arguments kept are exactly the type-valued generic arguments, in order; there are no more of them than there are arguments |
| TyExt.ParseTy | alphaflow/backend/build-tool/alphaflow-ast/src/ty_ext.rs:54-96 | a type that is not a path fails; every classification names the type's single segment, is `Other` exactly when that segment has no angle arguments, and is a map only for `HashMap`, a vector only for `Vec`, an option only for `Option` |
| TyExt.HashMapInfo | alphaflow/backend/build-tool/alphaflow-ast/src/ty_ext.rs:120-149 | anything but two arguments classifies as nothing; a classification is a map of the `HashMap` type itself with a bracket (key and value) |
| TyExt.OptionInfo | alphaflow/backend/build-tool/alphaflow-ast/src/ty_ext.rs:151-170 | anything but one type argument classifies as nothing; a classification is an option of the `Option` type itself |
| TyExt.VecInfo | alphaflow/backend/build-tool/alphaflow-ast/src/ty_ext.rs:172-190 | anything but one type argument classifies as nothing; a classification is a vector whose type is the element type |
| TyExt.ParseTyInto | alphaflow/backend/build-tool/alphaflow-ast/src/ty_ext.rs:54-96 | `parse_ty` against the collector returns the classification and pushes exactly the errors the classification reports |
| TyExt.PushedIsFailure | alphaflow/backend/build-tool/alphaflow-ast/src/ty_ext.rs:79-83 | at most one error is pushed, and only when the result is `Err` with that same message |
| TyExt.MultiSegmentUnrecognised | alphaflow/backend/build-tool/alphaflow-ast/src/ty_ext.rs:58-62 | a path type with other than one segment gives `Ok(None)` and pushes nothing |
| TyExt.PlainIdentIsOther | alphaflow/backend/build-tool/alphaflow-ast/src/ty_ext.rs:85-93 | a one-segment path without angle-bracket arguments is `Other` with no bracketed type |
| TyExt.VecOf | alphaflow/backend/build-tool/alphaflow-ast/src/ty_ext.rs:172-190 | `Vec<T>` is a vector whose type is T and whose bracketed info is T's classification; any other argument count gives `Ok(None)` |
| TyExt.OptionOf | alphaflow/backend/build-tool/alphaflow-ast/src/ty_ext.rs:151-170 | `Option<T>` is an option bracketing T's classification; other type-argument counts give `Ok(None)` |
| TyExt.HashMapOf | alphaflow/backend/build-tool/alphaflow-ast/src/ty_ext.rs:120-149 | `HashMap<K, V>` with both sides classified is a map from K's identifier to V's, bracketing V; either side unclassified makes the whole map `Ok(None)`; other argument counts give `Ok(None)` |
| TyExt.OtherGenericFails | alphaflow/backend/build-tool/alphaflow-ast/src/ty_ext.rs:79-83 | any other generic identifier fails with "Unsupported type with generics: " and its name, and that message is pushed |
| TyExt.NonPathFails | alphaflow/backend/build-tool/alphaflow-ast/src/ty_ext.rs:95 | a type that is not a path fails with the inner-type message and pushes nothing |
| TyExt.ErrorsPropagate | alphaflow/backend/build-tool/alphaflow-ast/src/ty_ext.rs:120-190 | an error classifying a vector's, option's or map key's argument is the whole type's error |
| TyExt.ValueErrorPropagates | alphaflow/backend/build-tool/alphaflow-ast/src/ty_ext.rs:137 | a map whose key classifies but whose value fails has the value's error |
| TyExt.MapWithLifetimePanics | alphaflow/backend/build-tool/alphaflow-ast/src/ty_ext.rs:126-137 | `HashMap<'a, K>` passes the two-argument test but yields one type, so the classification is the panic outcome |
| PbAttrs.DupIf | alphaflow/backend/build-tool/alphaflow-ast/src/pb_attrs.rs:139-150 | the duplicate error names the slot and appears exactly when the slot is already filled |
| PbAttrs.SetSlot | alphaflow/backend/build-tool/alphaflow-ast/src/pb_attrs.rs:139-150 | an empty slot takes the value and its tokens silently; a full one keeps its first value and pushes one duplicate error |
| PbAttrs.AstAttr.constructor | alphaflow/backend/build-tool/alphaflow-ast/src/pb_attrs.rs:129-136 | a new slot is empty, named, and reports to the given collector |
| PbAttrs.AstAttr.Set | alphaflow/backend/build-tool/alphaflow-ast/src/pb_attrs.rs:139-150 | the slot and the collector change exactly as `SetSlot` says |
| PbAttrs.AstAttr.SetOpt | alphaflow/backend/build-tool/alphaflow-ast/src/pb_attrs.rs:153-157 | a given value is `Set`; `None` changes nothing |
| PbAttrs.AstAttr.SetIfNone | alphaflow/backend/build-tool/alphaflow-ast/src/pb_attrs.rs:160-164 | an empty slot takes the value; a full slot is unchanged; nothing is ever pushed |
| PbAttrs.IfNone | alphaflow/backend/build-tool/alphaflow-ast/src/pb_attrs.rs:160-164 | the result is the old option when it was filled, otherwise `Some(v)` |
| PbAttrs.BoolAttr.constructor | alphaflow/backend/build-tool/alphaflow-ast/src/pb_attrs.rs:301-303 | a new flag is unset |
| PbAttrs.BoolAttr.SetTrue | alphaflow/backend/build-tool/alphaflow-ast/src/pb_attrs.rs:304-306 | the flag is set afterwards; setting it again pushes a duplicate error |
| PbAttrs.LitStr | alphaflow/backend/build-tool/alphaflow-ast/src/pb_attrs.rs:448-462 | `Ok` exactly for a string literal, with its value and no error; otherwise one error is pushed |
| PbAttrs.LitExprPath | alphaflow/backend/build-tool/alphaflow-ast/src/pb_attrs.rs:433-445 | `Ok` exactly for a string literal that parses as a path, with no error; otherwise one error is pushed |
| PbAttrs.LitTy | alphaflow/backend/build-tool/alphaflow-ast/src/pb_attrs.rs:465-477 | `Ok` exactly for a string literal that parses as a type, with no error; otherwise one error is pushed |
| PbAttrs.GetLitStr | alphaflow/backend/build-tool/alphaflow-ast/src/pb_attrs.rs:448-462 | returns `LitStr` and pushes its error exactly when it fails |
| PbAttrs.ParseLitIntoExprPath | alphaflow/backend/build-tool/alphaflow-ast/src/pb_attrs.rs:433-445 | returns `LitExprPath` and pushes its error exactly when it fails |
| PbAttrs.ParseLitIntoTy | alphaflow/backend/build-tool/alphaflow-ast/src/pb_attrs.rs:465-477 | returns `LitTy` and pushes its error exactly when it fails |
| PbAttrs.PbMetaItems | alphaflow/backend/build-tool/alphaflow-ast/src/pb_attrs.rs:388-407 | a non-`pb` attribute gives no entries silently; the result is `Ok` exactly when the attribute is not `pb` or is a parsed list; a failure pushes one or two errors |
| PbAttrs.NodeMetaItems | alphaflow/backend/build-tool/alphaflow-ast/src/pb_attrs.rs:410-426 | a non-`node` attribute gives no entries silently; the result is an error exactly when a `node`/`nodes` attribute does not parse, and then two errors are pushed |
| PbAttrs.GetPbMetaItems | alphaflow/backend/build-tool/alphaflow-ast/src/pb_attrs.rs:388-407 | returns `PbMetaItems` and pushes its errors |
| PbAttrs.GetNodeMetaItems | alphaflow/backend/build-tool/alphaflow-ast/src/pb_attrs.rs:410-426 | returns `NodeMetaItems` and pushes its errors |
| PbAttrs.FoldItemsTwo | alphaflow/backend/build-tool/alphaflow-ast/src/pb_attrs.rs:224-256 | two entries are processed first then second, and their errors are pushed in that order |
| PbAttrs.FoldAttrsNone | alphaflow/backend/build-tool/alphaflow-ast/src/pb_attrs.rs:388-393 | attributes that are not `pb` leave the slots unchanged and push nothing |
| PbAttrs.FoldAttrsOne | alphaflow/backend/build-tool/alphaflow-ast/src/pb_attrs.rs:216-223 | a single attribute gives its own errors, then the fold over its entries |
| PbAttrs.FoldAttr | alphaflow/backend/build-tool/alphaflow-ast/src/pb_attrs.rs:216-223 | an attribute's own errors come first; an attribute whose entries cannot be read contributes only those errors and leaves the slots as they were |
| PbAttrs.PbFieldFold | alphaflow/backend/build-tool/alphaflow-ast/src/pb_attrs.rs:216-256 | a field without `pb` attributes leaves every slot empty and reports nothing |
| PbAttrs.UnrecognizableFieldHasNoItems | alphaflow/backend/build-tool/alphaflow-ast/src/pb_attrs.rs:371-381 | a field none of whose attributes is recognizable yields no `pb` or `node` entries and no error |
| PbAttrs.PbBoolAttrs | alphaflow/backend/build-tool/alphaflow-ast/src/pb_attrs.rs:317-330 | `one_of` sets only `one_of`; `skip` sets both skip flags; any other bare word changes nothing |
| PbAttrs.ParsePbBoolAttrs | alphaflow/backend/build-tool/alphaflow-ast/src/pb_attrs.rs:317-330 | the three flags and the collector end as `PbBoolAttrs` says, with the duplicate errors of flags set twice |
| PbAttrs.ParsePbKeyValue | alphaflow/backend/build-tool/alphaflow-ast/src/pb_attrs.rs:333-364 | the value slots and the collector end as `PbKeyValue` says: `index` takes an integer literal, the `*_pb_with` keys a parsed path, any other key is an error |
| PbAttrs.PbFieldItem | alphaflow/backend/build-tool/alphaflow-ast/src/pb_attrs.rs:224-256 | one entry changes the slots and the collector as `PbFieldStep` says |
| PbAttrs.PbFieldItems | alphaflow/backend/build-tool/alphaflow-ast/src/pb_attrs.rs:224-256 | the entries of one attribute, applied in order, give the fold of `PbFieldStep` |
| PbAttrs.PbFieldAttribute | alphaflow/backend/build-tool/alphaflow-ast/src/pb_attrs.rs:216-223 | one attribute's errors, then its entries, as `FoldAttr` says |
| PbAttrs.PbFieldAttributes | alphaflow/backend/build-tool/alphaflow-ast/src/pb_attrs.rs:216-256 | every attribute of the field, in order, as `FoldAttrs` says |
| PbAttrs.PbStructFromAst | alphaflow/backend/build-tool/alphaflow-ast/src/pb_attrs.rs:203-268 | the field's protobuf attributes and pushed errors equal `PbStructSpec`: name from identifier or position, then every entry in order |
| PbAttrs.PbStructSpec | alphaflow/backend/build-tool/alphaflow-ast/src/pb_attrs.rs:203-268 | the name is the identifier, or the position for a tuple field; the errors are exactly the field fold's; without `pb` attributes there is no index, no flag and no custom (de)serializer, and no error |
| PbAttrs.PbContainerItem | alphaflow/backend/build-tool/alphaflow-ast/src/pb_attrs.rs:51-73 | one container entry changes the slots as `PbContainerStep` says: `struct`/`enum` take a type, other keys and literals are errors |
| PbAttrs.PbContainerItems | alphaflow/backend/build-tool/alphaflow-ast/src/pb_attrs.rs:43-75 | the entries of one attribute, applied in order, give the fold of `PbContainerStep` |
| PbAttrs.PbContainerAttribute | alphaflow/backend/build-tool/alphaflow-ast/src/pb_attrs.rs:43-50 | one attribute's errors, then its entries |
| PbAttrs.PbContainerFromAst | alphaflow/backend/build-tool/alphaflow-ast/src/pb_attrs.rs:38-96 | the container attributes and pushed errors equal `PbContainerSpec`: entries in order, then the struct or enum type defaulted to the item's own name |
| PbAttrs.PbContainerSpec | alphaflow/backend/build-tool/alphaflow-ast/src/pb_attrs.rs:38-96 | the name is the identifier; a struct always has a struct type and an enum an enum type (given or defaulted); a union keeps exactly what the attributes set; the errors are exactly the attributes' |
| PbAttrs.Ungrouped | alphaflow/backend/build-tool/alphaflow-ast/src/pb_attrs.rs:564-569 | the result is not a group, and a type that is not a group is returned unchanged |
| PbAttrs.Ungroup | alphaflow/backend/build-tool/alphaflow-ast/src/pb_attrs.rs:564-569 | the loop strips every group: the result is `Ungrouped` |
| PbAttrs.IsOptionUngroups | alphaflow/backend/build-tool/alphaflow-ast/src/pb_attrs.rs:541-561 | wrapping a type in groups does not change `is_option` |
| PbAttrs.IsOptionLastSegment | alphaflow/backend/build-tool/alphaflow-ast/src/pb_attrs.rs:541-561 | a path ending in `Option<T>` is an option whatever precedes it; a bare `Option` is not |
| PbAttrs.NoPbAttributes | alphaflow/backend/build-tool/alphaflow-ast/src/pb_attrs.rs:203-268 | a field without `pb` attributes gets its name, no flags, no values and no errors |
| PbAttrs.FieldNames | alphaflow/backend/build-tool/alphaflow-ast/src/pb_attrs.rs:212-215 | a tuple field is named by its position; a named field by its identifier |
| PbAttrs.PbFieldEntries | alphaflow/backend/build-tool/alphaflow-ast/src/pb_attrs.rs:203-268 | a field with one `#[pb(...)]` gets the fold of its entries from empty slots |
| PbAttrs.SkipSetsBoth | alphaflow/backend/build-tool/alphaflow-ast/src/pb_attrs.rs:322-325 | `#[pb(skip)]` sets both skip flags, leaves `one_of` unset, and pushes nothing |
| PbAttrs.OneOfAndOtherWords | alphaflow/backend/build-tool/alphaflow-ast/src/pb_attrs.rs:319-329 | `#[pb(one_of)]` sets only `one_of`; an unknown bare word is ignored without an error |
| PbAttrs.SecondIndexIsDuplicate | alphaflow/backend/build-tool/alphaflow-ast/src/pb_attrs.rs:340-345 | a second `index` keeps the first value and pushes one duplicate error |
| PbAttrs.IndexOnlyInteger | alphaflow/backend/build-tool/alphaflow-ast/src/pb_attrs.rs:340-345 | an `index` with a non-integer literal sets nothing and pushes nothing |
| PbAttrs.SerializeWithPath | alphaflow/backend/build-tool/alphaflow-ast/src/pb_attrs.rs:346-351 | `serialize_pb_with = "f"` stores the path when it parses, and pushes the failure when it does not |
| PbAttrs.UnknownFieldKey | alphaflow/backend/build-tool/alphaflow-ast/src/pb_attrs.rs:357-362 | an unknown key pushes an error naming its path and changes no slot |
| PbAttrs.FlagsFromEntries | alphaflow/backend/build-tool/alphaflow-ast/src/pb_attrs.rs:317-330 | `one_of` is set exactly when some entry is the word `one_of`; each skip flag exactly when some entry is `skip` |
| PbAttrs.ContainerDefaults | alphaflow/backend/build-tool/alphaflow-ast/src/pb_attrs.rs:79-89 | without `struct = ...` a struct's type is its own name; without `enum = ...` an enum's is |
| PbAttrs.PbItemEntries | alphaflow/backend/build-tool/alphaflow-ast/src/pb_attrs.rs:38-96 | an item with one `#[pb(...)]` is the fold of its entries, then the default |
| PbAttrs.ExplicitStructType | alphaflow/backend/build-tool/alphaflow-ast/src/pb_attrs.rs:579-601 | `#[pb(struct = "T")]` on a struct names its type T, leaves the enum type empty, and pushes nothing |
| PbAttrs.ExplicitEnumType | alphaflow/backend/build-tool/alphaflow-ast/src/pb_attrs.rs:603-619 | `#[pb(enum = "T")]` on an enum names its type T and leaves the struct type empty |
| PbAttrs.UnknownContainerKey | alphaflow/backend/build-tool/alphaflow-ast/src/pb_attrs.rs:621-641 | an unknown container key pushes an error naming its path; the struct still gets its default type |
| PbAttrs.ContainerAlwaysTyped | alphaflow/backend/build-tool/alphaflow-ast/src/pb_attrs.rs:79-89 | a struct always ends with a struct type and an enum with an enum type |
| PbAttrs.SetTwice | alphaflow/backend/build-tool/alphaflow-ast/src/pb_attrs.rs:139-150 | setting one slot twice keeps the first value and its tokens, and the collector holds exactly one duplicate error |
| PbAttrs.SetIfNoneTwice | alphaflow/backend/build-tool/alphaflow-ast/src/pb_attrs.rs:160-164 | `set_if_none` fills an empty slot, never overwrites a filled one, and pushes nothing |
| PbAttrs.FlagLifecycle | alphaflow/backend/build-tool/alphaflow-ast/src/pb_attrs.rs:298-310 | a flag reads false until `set_true` is called and true afterwards |
| NodeAttrs.PathSlot | alphaflow/backend/build-tool/alphaflow-ast/src/node_attrs.rs:140-154 | a string literal that parses as a path fills the slot as `SetSlot` says; anything else leaves the slot and pushes one error |
| NodeAttrs.SetPath | alphaflow/backend/build-tool/alphaflow-ast/src/node_attrs.rs:140-154 | the slot and the collector end as `PathSlot` says |
| NodeAttrs.ParseNodeKeyValue | alphaflow/backend/build-tool/alphaflow-ast/src/node_attrs.rs:110-163 | the six slots and the collector end as the key-value step says: string keys take string literals, `child_index` an integer, the path keys a parsed path, any other key is an error |
| NodeAttrs.NodeItem | alphaflow/backend/build-tool/alphaflow-ast/src/node_attrs.rs:60-89 | one entry: a key-value is parsed; a bare word is an unknown attribute; a literal is unexpected |
| NodeAttrs.NodeItems | alphaflow/backend/build-tool/alphaflow-ast/src/node_attrs.rs:59-90 | the entries of one attribute, applied in order, give the fold of the step |
| NodeAttrs.NodeAttribute | alphaflow/backend/build-tool/alphaflow-ast/src/node_attrs.rs:52-56 | one attribute's errors, then its entries |
| NodeAttrs.NodeAttributes | alphaflow/backend/build-tool/alphaflow-ast/src/node_attrs.rs:52-90 | every attribute, in order |
| NodeAttrs.NodeStructFromAst | alphaflow/backend/build-tool/alphaflow-ast/src/node_attrs.rs:42-103 | the node attributes and pushed errors equal the fold over every entry, with `has_child` true exactly when a child name is set |
| NodeAttrs.NodeStructSpec | alphaflow/backend/build-tool/alphaflow-ast/src/node_attrs.rs:42-103 | `has_child` holds exactly when a child name was given; the child name and the errors are those of the field's `node` entries |
| NodeAttrs.FirstChildName | alphaflow/backend/build-tool/alphaflow-ast/src/node_attrs.rs:130-134 | the value of the first `child_name = "..."` entry; `None` exactly when there is no such entry |
| NodeAttrs.ChildNameIsFirst | alphaflow/backend/build-tool/alphaflow-ast/src/node_attrs.rs:130-134 | the child name is the first `child_name` entry's, unless one was already set |
| NodeAttrs.NodeFieldEntries | alphaflow/backend/build-tool/alphaflow-ast/src/node_attrs.rs:42-103 | a field with one `#[node(...)]` is the fold of its entries from empty slots |
| NodeAttrs.HasChildIffChildName | alphaflow/backend/build-tool/alphaflow-ast/src/node_attrs.rs:93-98 | `has_child` holds exactly when some entry is `child_name = "..."` |
| NodeAttrs.RenameTwice | alphaflow/backend/build-tool/alphaflow-ast/src/node_attrs.rs:125-129 | a second `rename` keeps the first name and pushes a duplicate error |
| NodeAttrs.WrongLiteralsIgnored | alphaflow/backend/build-tool/alphaflow-ast/src/node_attrs.rs:125-139 | `rename`/`child_name` with a non-string literal and `child_index` with a non-integer one change nothing and push nothing |
| NodeAttrs.IndexAndChildren | alphaflow/backend/build-tool/alphaflow-ast/src/node_attrs.rs:135-154 | `child_index = N` records the digits; `with_children = "f"` the parsed path |
| NodeAttrs.UnknownNodeKey | alphaflow/backend/build-tool/alphaflow-ast/src/node_attrs.rs:155-162 | an unknown key pushes "unknown node field attribute" with the path's compact text and changes nothing |
| NodeAttrs.WordsAndLiterals | alphaflow/backend/build-tool/alphaflow-ast/src/node_attrs.rs:74-88 | a bare word is reported as an unknown attribute; a bare literal as unexpected |
| NodeAttrs.NonListNodeIsSilent | alphaflow/backend/build-tool/alphaflow-ast/src/pb_attrs.rs:410-426 | a `#[node]` or `#[node = ...]` that is not a list contributes nothing and pushes nothing |
| NodeAttrs.LongValueKeysUnknown | alphaflow/backend/build-tool/alphaflow-ast/src/node_attrs.rs:171-221 | the keys `get_node_value_with`/`set_node_value_with` used by this test are reported as unknown and set no slot |
| EventAttrs.DiscriminantValue | alphaflow/backend/build-tool/alphaflow-ast/src/event_attrs.rs:47-60 | an integer-literal discriminant gives its digits; any other literal gives "" and the only-integer error; no discriminant, or one that is not a literal, gives "" silently |
| EventAttrs.EventMetaItems | alphaflow/backend/build-tool/alphaflow-ast/src/event_attrs.rs:218-241 | a non-`event` attribute gives no entries and no error; entries come with no error; a failure pushes one or two errors |
| EventAttrs.CollectEventItems | alphaflow/backend/build-tool/alphaflow-ast/src/event_attrs.rs:129-135 | at most one collected group per attribute |
| EventAttrs.EventError | alphaflow/backend/build-tool/alphaflow-ast/src/event_attrs.rs:79-82 | the enum's error type, which the caller must have given |
| EventAttrs.ParseEventErr | alphaflow/backend/build-tool/alphaflow-ast/src/event_attrs.rs:99-126 | the attributes and the collector end as the fold over the enum's `event_err` attributes says |
| EventAttrs.GetEventMetaItems | alphaflow/backend/build-tool/alphaflow-ast/src/event_attrs.rs:218-241 | returns `EventMetaItems` and pushes its errors |
| EventAttrs.CollectItems | alphaflow/backend/build-tool/alphaflow-ast/src/event_attrs.rs:129-135 | returns `CollectEventItems` and pushes its errors |
| EventAttrs.ParseEventKeyValue | alphaflow/backend/build-tool/alphaflow-ast/src/event_attrs.rs:167-215 | `input`/`output` take a string literal, overwriting silently; a non-string value or an unknown key is an error |
| EventAttrs.ApplyEventItems | alphaflow/backend/build-tool/alphaflow-ast/src/event_attrs.rs:138-160 | the entries of one collected attribute, applied in order, give the fold of the step |
| EventAttrs.ApplyEventGroups | alphaflow/backend/build-tool/alphaflow-ast/src/event_attrs.rs:137-161 | the collected attributes, in order |
| EventAttrs.GetEventAttrsFrom | alphaflow/backend/build-tool/alphaflow-ast/src/event_attrs.rs:86-164 | the event attributes and pushed errors equal the spec: `event_err` errors, then collection errors, then entry errors |
| EventAttrs.EventEnumFromAst | alphaflow/backend/build-tool/alphaflow-ast/src/event_attrs.rs:37-71 | the variant's event value and attributes, with the discriminant's error pushed before the attribute errors |
| EventAttrs.EventAttrsSpec | alphaflow/backend/build-tool/alphaflow-ast/src/event_attrs.rs:86-164 | the error type is the one the enum's `event_err` attributes set, whatever the variant says; the enum-level errors come first |
| EventAttrs.EventEnumSpec | alphaflow/backend/build-tool/alphaflow-ast/src/event_attrs.rs:37-71 | the enum's and the variant's names are recorded; the error type is the enum's; the discriminant's error, if any, comes before the attributes' |
| EventAttrs.ItemsKeepErrorTy | alphaflow/backend/build-tool/alphaflow-ast/src/event_attrs.rs:167-215 | entries of one attribute never change the error type |
| EventAttrs.GroupsKeepErrorTy | alphaflow/backend/build-tool/alphaflow-ast/src/event_attrs.rs:137-161 | no variant entry changes the error type |
| EventAttrs.ErrorTyFromEnumOnly | alphaflow/backend/build-tool/alphaflow-ast/src/event_attrs.rs:86-164 | every variant of an enum gets the error type the enum's attributes give, whatever its own attributes |
| EventAttrs.EventErrValue | alphaflow/backend/build-tool/alphaflow-ast/src/event_attrs.rs:102-113 | `#[event_err = "E"]` gives error type E; a non-string value is reported and gives none |
| EventAttrs.EventVariantEntries | alphaflow/backend/build-tool/alphaflow-ast/src/event_attrs.rs:86-164 | a single `#[event(...)]` on a variant of an unannotated enum gives the fold of its entries |
| EventAttrs.IgnoreFlag | alphaflow/backend/build-tool/alphaflow-ast/src/event_attrs.rs:145-149 | `#[event(ignore)]` marks the variant ignored; another bare word changes nothing |
| EventAttrs.InputOverwrites | alphaflow/backend/build-tool/alphaflow-ast/src/event_attrs.rs:167-215 | a second `input` replaces the first without an error |
| EventAttrs.KeyValueErrors | alphaflow/backend/build-tool/alphaflow-ast/src/event_attrs.rs:167-215 | a non-string value is reported and sets nothing; an unknown key is reported |
| EventAttrs.BareEventReported | alphaflow/backend/build-tool/alphaflow-ast/src/event_attrs.rs:228-231 | a bare `#[event]` pushes "expected #[event(...)]" and contributes no entries |
| EventAttrs.NoEventErr | alphaflow/backend/build-tool/alphaflow-ast/src/event_attrs.rs:99-126 | enum attributes without `event_err` leave the attributes unchanged and push nothing |
| EventAttrs.DiscriminantValues | alphaflow/backend/build-tool/alphaflow-ast/src/event_attrs.rs:47-60 | an integer discriminant is the event value; no discriminant gives "" |
| EventAttrs.NonIntDiscriminantWithBareEvent | alphaflow/backend/build-tool/alphaflow-ast/src/event_attrs.rs:303-327 | a bare `#[event]` on a variant with a string discriminant pushes two errors, the discriminant's then the attribute's; the test expects one |
| AstContainer.AllFields | alphaflow/backend/build-tool/alphaflow-ast/src/ast.rs:33-38 | a struct's fields are exactly its own fields (an enum's are characterised by `AllFieldsOfEnum`) |
| AstContainer.AllVariants | alphaflow/backend/build-tool/alphaflow-ast/src/ast.rs:40-47 | one event-attribute entry per variant, in order; a struct has none |
| AstContainer.AllIdents | alphaflow/backend/build-tool/alphaflow-ast/src/ast.rs:49-60 | an enum gives its variants' names in order; a struct gives exactly the names of its named fields, at most one per field |
| AstContainer.BracketInfo | alphaflow/backend/build-tool/alphaflow-ast/src/ast.rs:290-309 | the category mirrors the classification; the bracket type is always the type's identifier; an inner type is present exactly when there is a bracketed type |
| AstContainer.TyAsStr | alphaflow/backend/build-tool/alphaflow-ast/src/ast.rs:133-141 | the inner type's name when there is one, else the bracket type's, else "UnknownTy" |
| AstContainer.FieldSpec | alphaflow/backend/build-tool/alphaflow-ast/src/ast.rs:96-131 | an unannotated field is rejected as unrecognizable and pushes nothing; a built field is named by its identifier or its position, keeps the field's type and has a bracket category |
| AstContainer.FieldsFold | alphaflow/backend/build-tool/alphaflow-ast/src/ast.rs:233-254 | no more fields come out than go in (which fields, and which messages, are stated by the lemmas below) |
| AstContainer.ParseFieldsSpec | alphaflow/backend/build-tool/alphaflow-ast/src/ast.rs:189-208 | named fields give Struct, one unnamed field NewType, several Tuple, unit Unit with no fields |
| AstContainer.VariantsFold | alphaflow/backend/build-tool/alphaflow-ast/src/ast.rs:210-231 | exactly one entry per variant |
| AstContainer.LastNodeType | alphaflow/backend/build-tool/alphaflow-ast/src/ast.rs:256-275 | `Some` exactly when some `node_type` attribute has a string value |
| AstContainer.NodeTypeFold | alphaflow/backend/build-tool/alphaflow-ast/src/ast.rs:256-275 | a node type is found exactly when some attribute is `node_type = "..."` with a string |
| AstContainer.ContainerSpec | alphaflow/backend/build-tool/alphaflow-ast/src/ast.rs:160-186 | no container exactly for a union; otherwise the container keeps the identifier, takes the protobuf attributes and the last node type, and a struct gives a struct body |
| AstContainer.NewField | alphaflow/backend/build-tool/alphaflow-ast/src/ast.rs:96-131 | returns `FieldSpec` and pushes its errors |
| AstContainer.FieldFromAst | alphaflow/backend/build-tool/alphaflow-ast/src/ast.rs:240-252 | one field of the fold: the field if it builds, else nothing, its message pushed unless it mentions "unrecognizable" |
| AstContainer.FieldsFromAst | alphaflow/backend/build-tool/alphaflow-ast/src/ast.rs:233-254 | returns `FieldsFold` and pushes its errors |
| AstContainer.ParseFields | alphaflow/backend/build-tool/alphaflow-ast/src/ast.rs:189-208 | returns `ParseFieldsSpec` and pushes its errors |
| AstContainer.VariantFromAst | alphaflow/backend/build-tool/alphaflow-ast/src/ast.rs:218-229 | a variant's event attributes, then its fields |
| AstContainer.VariantsFoldStep | alphaflow/backend/build-tool/alphaflow-ast/src/ast.rs:216-230 | the fold over one more variant appends that variant's entry and errors |
| AstContainer.EnumFromAst | alphaflow/backend/build-tool/alphaflow-ast/src/ast.rs:210-231 | returns `VariantsFold` and pushes its errors |
| AstContainer.GetNodeType | alphaflow/backend/build-tool/alphaflow-ast/src/ast.rs:256-275 | the last string `node_type`, with one duplicate error for each parsed `node_type` seen after a first one |
| AstContainer.ContainerFromAst | alphaflow/backend/build-tool/alphaflow-ast/src/ast.rs:160-186 | returns `ContainerSpec` and pushes its errors |
| AstContainer.VariantsFoldEntries | alphaflow/backend/build-tool/alphaflow-ast/src/ast.rs:216-230 | entry i carries variant i's name, event attributes and parsed fields |
| AstContainer.AllFieldsOfEnum | alphaflow/backend/build-tool/alphaflow-ast/src/ast.rs:33-38 | a field belongs to an enum's fields exactly when it belongs to one of its variants' fields |
| AstContainer.AllFieldsAppend | alphaflow/backend/build-tool/alphaflow-ast/src/ast.rs:33-38 | a further variant appends its fields to the enum's |
| AstContainer.UnionNotSupported | alphaflow/backend/build-tool/alphaflow-ast/src/ast.rs:327-364 | a union gives no container and pushes "Does not support union" after the protobuf attributes' errors |
| AstContainer.UnannotatedFieldsDropped | alphaflow/backend/build-tool/alphaflow-ast/src/ast.rs:97-100 | fields without a `pb`, `node` or `event` annotation are dropped and nothing is pushed |
| AstContainer.UnclassifiedTypeReported | alphaflow/backend/build-tool/alphaflow-ast/src/ast.rs:105-108 | an annotated field whose type is a path of several segments is dropped with "Fail to get the ty inner type" pushed |
| AstContainer.FailedTypeReportedThrice | alphaflow/backend/build-tool/alphaflow-ast/src/ast.rs:109-112 | a failing type costs three errors: the type's, the field's "Field parse_ty error", then the message again |
| AstContainer.UnrecognizableNameHidesError | alphaflow/backend/build-tool/alphaflow-ast/src/ast.rs:244-245 | an annotated field whose name contains "unrecognizable" and whose type is unclassified is dropped silently, because its debug text carries the name |
| AstContainer.AnnotationWords | alphaflow/backend/build-tool/alphaflow-ast/src/ast.rs:277-288 | any path whose text contains the words counts, such as `nodes` and `event_err` |
| AstContainer.NodeTypeIsLast | alphaflow/backend/build-tool/alphaflow-ast/src/ast.rs:262-273 | the loop's node type is the last string `node_type` |
| AstContainer.NodeTypeTwice | alphaflow/backend/build-tool/alphaflow-ast/src/ast.rs:265-270 | a second `node_type` replaces the first and pushes "Duplicate node_type definition" |
| AstContainer.BuiltFieldTyName | alphaflow/backend/build-tool/alphaflow-ast/src/ast.rs:133-141 | a built field's type name is its bracketed type's identifier when there is one, otherwise its own |
| JsonExpression.CloseFrom | alphaflow/backend/alphaflow-workflow/src/json_expression.rs:12 | a found `}}` lies at or after the start offset and fits in the text |
| JsonExpression.CloseFromFirst | alphaflow/backend/alphaflow-workflow/src/json_expression.rs:12 | the lazy `.*?` stops at the first `}}`: when no `}` lies between the start and k, the match closes at k |
| JsonExpression.BrokenBodyIsTrimmedBreak | alphaflow/backend/alphaflow-workflow/src/json_expression.rs:12 | a placeholder body fails to match, because `.` does not cross a line break, exactly when a line break is left after trimming |
| JsonExpression.PlaceholderEnd | alphaflow/backend/alphaflow-workflow/src/json_expression.rs:12 | a match starting at i spans at least the four brace characters and ends inside the text |
| JsonExpression.PlaceholderSpan | alphaflow/backend/alphaflow-workflow/src/json_expression.rs:12 | a placeholder `{{e}}` written at offset i, with no `}` and no surviving line break in e, is matched there whole |
| JsonExpression.LiteralStep | alphaflow/backend/alphaflow-workflow/src/json_expression.rs:16-30 | an offset where no match starts is copied later as part of the text since the last match |
| JsonExpression.PlaceholderStep | alphaflow/backend/alphaflow-workflow/src/json_expression.rs:16-28 | a match at offset i contributes the text since the last match, then its replacement, and the scan resumes at its end |
| JsonExpression.CopyPlaceholder | alphaflow/backend/alphaflow-workflow/src/json_expression.rs:17-28 | pushing the text since the last match and the replacement keeps the output plus the rest's interpolation equal to the whole |
| JsonExpression.ScanStep | alphaflow/backend/alphaflow-workflow/src/json_expression.rs:16-29 | one turn of the scan advances and keeps the same equation |
| JsonExpression.InterpolateWith | alphaflow/backend/alphaflow-workflow/src/json_expression.rs:11-31 | the loop over the matches computes the interpolation of the whole string for any evaluator |
| JsonExpression.ResolveString | alphaflow/backend/alphaflow-workflow/src/json_expression.rs:11-31 | the string case of `resolve_expressions` is the interpolation of the string with `evaluate_subexpr` |
| JsonExpression.Interpolated | alphaflow/backend/alphaflow-workflow/src/json_expression.rs:11-31 | a string without `{` comes back unchanged |
| JsonExpression.Resolve | alphaflow/backend/alphaflow-workflow/src/json_expression.rs:9-48 | the shape is kept: strings stay strings, arrays keep their length, objects keep their key set, every other value is unchanged |
| JsonExpression.ResolveExpressions | alphaflow/backend/alphaflow-workflow/src/json_expression.rs:9-48 | the loops rebuilding arrays and objects compute `Resolve` |
| JsonExpression.FailuresKeepText | alphaflow/backend/alphaflow-workflow/src/json_expression.rs:21-27 | where no placeholder evaluates, the text is copied unchanged, failed placeholders included |
| JsonExpression.NoPlaceholderKeepsText | alphaflow/backend/alphaflow-workflow/src/json_expression.rs:16-31 | a string with no `{{` comes back unchanged |
| JsonExpression.LiteralRun | alphaflow/backend/alphaflow-workflow/src/json_expression.rs:16-30 | a run of text without `{` is copied verbatim, ahead of what follows it |
| JsonExpression.FillSpan | alphaflow/backend/alphaflow-workflow/src/json_expression.rs:16-31 | with one placeholder at i and no `{` elsewhere, the result is the text before it, its replacement, and the text after it |
| JsonExpression.FillTemplateWith | alphaflow/backend/alphaflow-workflow/src/json_expression.rs:16-31 | text around a placeholder is copied in order around the placeholder's replacement, for any evaluator |
| JsonExpression.FillTemplate | alphaflow/backend/alphaflow-workflow/src/json_expression.rs:16-31 | text around a placeholder is copied in order around the value of its trimmed body, or around the placeholder itself when that fails |
| JsonExpression.EvaluateSubexpr | alphaflow/backend/alphaflow-workflow/src/json_expression.rs:53-81 | a stripped expression starting with neither `$json` nor `$node` gives "Unsupported expr syntax"; a success always starts with one of them |
| JsonExpression.StrippedForms | alphaflow/backend/alphaflow-workflow/src/json_expression.rs:55-69 | a leading `=`, a wrapping `{{ }}`, and both together all reduce to the bare path |
| JsonExpression.ParseNodePath | alphaflow/backend/alphaflow-workflow/src/json_expression.rs:98-118 | a path not starting with `$node[` is an error; a success needs a `]` in the path |
| JsonExpression.NodePathSteps | alphaflow/backend/alphaflow-workflow/src/json_expression.rs:103-117 | once the first `]`, the unquoted name and `].json[` are found, the result is the node's value walked along the keys, or "not found" for an unknown node |
| JsonExpression.UnquoteName | alphaflow/backend/alphaflow-workflow/src/json_expression.rs:105 | `trim_matches('"')` takes exactly the surrounding quotes off a name that holds none |
| JsonExpression.NodePathRendered | alphaflow/backend/alphaflow-workflow/src/json_expression.rs:234-254 | `$node["n"].json["k1"]...` walks n's result along the keys, and fails with "not found" for an unknown node |
| JsonExpression.MatchKey | alphaflow/backend/alphaflow-workflow/src/json_expression.rs:126 | a key match consumes at least one character and no more than the text, and its key is non-empty and free of `"`; the digit form accepts any Unicode decimal digit, as the regex class `\d` does |
| JsonExpression.MatchDigits | alphaflow/backend/alphaflow-workflow/src/json_expression.rs:126 | `[` then a run of Unicode decimal digits then `]` is a key match of that run, spanning both brackets |
| JsonExpression.OtherDigitsKey | alphaflow/backend/alphaflow-workflow/src/json_expression.rs:126-155 | a bracketed run of non-ASCII decimal digits is matched as a key, is not an index for `parse::<usize>`, and reads the object field of that name ("Key not found" when absent) |
| JsonExpression.ExtractKeys | alphaflow/backend/alphaflow-workflow/src/json_expression.rs:123-138 | the scan pushes the key of every non-overlapping match, left to right |
| JsonExpression.KeysIn | alphaflow/backend/alphaflow-workflow/src/json_expression.rs:123-138 | every key read is non-empty and free of `"` |
| JsonExpression.KeysOfRendered | alphaflow/backend/alphaflow-workflow/src/json_expression.rs:123-138 | `extract_keys` reads back every key of a quoted path, in order |
| JsonExpression.GetValueByKeys | alphaflow/backend/alphaflow-workflow/src/json_expression.rs:141-162 | the cursor loop computes the key-by-key lookup, with its errors |
| JsonExpression.Lookup | alphaflow/backend/alphaflow-workflow/src/json_expression.rs:141-162 | the only failures are indexing a non-array, an index out of range, or a missing key, and a missing key is one of the keys looked up |
| JsonExpression.LookupAppend | alphaflow/backend/alphaflow-workflow/src/json_expression.rs:142-161 | walking `a + b` is walking a and then b from where a ended; a failure stops the walk |
| JsonExpression.IndexKeyOnObject | alphaflow/backend/alphaflow-workflow/src/json_expression.rs:276-283 | a key that parses as an index fails with "not an array" on an object, even one with a field of that name |
| JsonExpression.JsonPathRendered | alphaflow/backend/alphaflow-workflow/src/json_expression.rs:84-95 | a `$json` path written as quoted keys walks the input along those keys |
| JsonExpression.ParseJsonPath | alphaflow/backend/alphaflow-workflow/src/json_expression.rs:84-95 | a path not starting with `$json` fails with exactly that error; every other failure is a missing `[` or a lookup failure |
| JsonExpression.ValueToString | alphaflow/backend/alphaflow-workflow/src/json_expression.rs:165-173 | a string is given without quotes (quoting the result gives its JSON text), null as "", everything else as its JSON text |
| JsonExpression.JsonPlaceholder | alphaflow/backend/alphaflow-workflow/src/json_expression.rs:185-206 | a padded `$json` placeholder becomes the text of the looked-up value, or stays as written when the lookup fails |
| JsonExpression.FieldExample | alphaflow/backend/alphaflow-workflow/src/json_expression.rs:301-321 | `Hello, {{ $json["city"] }} is cool` over an object mapping the key to a text gives `Hello, ` + text + ` is cool` |
| JsonExpression.FieldBetween | alphaflow/backend/alphaflow-workflow/src/json_expression.rs:311-327 | any text without `{` on either side of a `$json` field placeholder is kept around the field's value |
| Json.UnescapeEscape | alphaflow/backend/alphaflow-workflow/src/json_expression.rs:171 | decoding the escaped JSON text of any string gives the string back |
| Transformation.MergeObjects | alphaflow/backend/alphaflow-workflow/src/transformation.rs:27-32 | the keys are the union; an overlay key takes the overlay's value; every other key keeps the base's |
| Transformation.SetNestedValue | alphaflow/backend/alphaflow-workflow/src/transformation.rs:36-59 | the cursor loop leaves exactly what `SetNested` says for the path split at `.` |
| Transformation.SetNested | alphaflow/backend/alphaflow-workflow/src/transformation.rs:36-59 | the result is an object exactly when the target is; an empty path or a non-object target is left as it was; otherwise the top-level keys gain exactly the path's first part |
| Transformation.SetNestedGet | alphaflow/backend/alphaflow-workflow/src/transformation.rs:42-52 | when the walk reaches the last key, the new value can be read back at the path |
| Transformation.SetNestedBlocked | alphaflow/backend/alphaflow-workflow/src/transformation.rs:44-56 | when a non-object is met before the last key is set, the value is left completely unchanged |
| Transformation.SetNestedTop | alphaflow/backend/alphaflow-workflow/src/transformation.rs:41-58 | an object stays an object and gains at most the path's first key; every other top-level key keeps its value |
| Transformation.Descend | alphaflow/backend/alphaflow-workflow/src/transformation.rs:48-52 | one step down: a missing key becomes an empty object and the walk continues under it |
| Transformation.Reshaped | alphaflow/backend/alphaflow-workflow/src/transformation.rs:75-82 | parameters are merged in only when they and the filtered data are both objects; otherwise the data is unchanged |
| Transformation.TransformData | alphaflow/backend/alphaflow-workflow/src/transformation.rs:66-103 | the four steps compute the pipeline `Transform`, a failing query ending it with that failure |
| Transformation.Transform | alphaflow/backend/alphaflow-workflow/src/transformation.rs:66-103 | without an output path the transformation succeeds exactly when there is no input path or the input query succeeds; a failing input query's error is the result |
| Transformation.TransformIdentity | alphaflow/backend/alphaflow-workflow/src/transformation.rs:66-103 | with no step configured the input comes back unchanged |
| Transformation.InputQueryFails | alphaflow/backend/alphaflow-workflow/src/transformation.rs:68-69 | a failing input query is the result |
| Transformation.ResultPathEmbeds | alphaflow/backend/alphaflow-workflow/src/transformation.rs:84-90 | with a result path whose walk can complete and no output path, the result is the input holding the reshaped value at that path |
| Transformation.OutputPathDirect | alphaflow/backend/alphaflow-workflow/src/transformation.rs:93-97 | with a result path, an output path without a dot returns the reshaped value itself |
| Transformation.ResultPathExample | alphaflow/backend/alphaflow-workflow/src/transformation.rs:164-192 | the body is filtered, the note merged in, and the merged body stored back under `body.transformed` |
| WaitingQueue.WaitingQueue.constructor | alphaflow/backend/alphaflow-workflow/src/waiting_queue.rs:6-10 | a new queue has no entries |
| WaitingQueue.WaitingQueue.Add | alphaflow/backend/alphaflow-workflow/src/waiting_queue.rs:14-25 | the child's entry gains or replaces the parent's output; its other parents and every other child are unchanged; afterwards `IsReady` holds exactly for thresholds up to the number of distinct parents recorded, so readiness counts parents, not outputs |
| WaitingQueue.WaitingQueue.Merge | alphaflow/backend/alphaflow-workflow/src/waiting_queue.rs:29-31 | `None` exactly for a child without an entry; otherwise the entry as an object keyed by parent; only that child is removed, and afterwards it is ready for no threshold |
| WaitingQueue.AddThenReady | alphaflow/backend/alphaflow-workflow/src/waiting_queue.rs:23-25 | one output makes a child ready for threshold 1, and merging gives that single output keyed by its parent |
| WaitingQueue.SameParentTwice | alphaflow/backend/alphaflow-workflow/src/waiting_queue.rs:14-25 | two outputs of the same parent count once toward readiness, and the later one is merged |
| WaitingQueue.TwoParents | alphaflow/backend/alphaflow-workflow/src/waiting_queue.rs:14-31 | outputs of two different parents make the child ready for two but not for three, and merging gives both outputs keyed by parent |
| Workflow.Without | alphaflow/backend/alphaflow-workflow/src/workflow.rs:56-59 | removing every occurrence of x: x no longer occurs; every other element keeps its count; nothing new appears |
| Workflow.RetainEverywhere | alphaflow/backend/alphaflow-workflow/src/workflow.rs:55-60 | the loop drops x from every bucket and keeps every key |
| Workflow.ConsistentAfterAdd | alphaflow/backend/alphaflow-workflow/src/workflow.rs:46-48 | adding node names keeps the two indexes consistent |
| Workflow.ConsistentAfterConnect | alphaflow/backend/alphaflow-workflow/src/workflow.rs:71-80 | appending t to s's source bucket and s to t's destination bucket keeps the indexes mutually inverse |
| Workflow.CountAfterAppend | alphaflow/backend/alphaflow-workflow/src/workflow.rs:71-80 | appending x to k's bucket adds one occurrence there and none elsewhere |
| Workflow.ConsistentAfterDisconnect | alphaflow/backend/alphaflow-workflow/src/workflow.rs:84-91 | removing t from s's bucket and s from t's keeps the indexes mutually inverse |
| Workflow.CountAfterWithout | alphaflow/backend/alphaflow-workflow/src/workflow.rs:84-91 | removing x from k's bucket leaves no occurrence there and changes no other count |
| Workflow.RemoveFromIndex | alphaflow/backend/alphaflow-workflow/src/workflow.rs:51-61 | the index without id's bucket keeps every other key |
| Workflow.ConsistentAfterRemove | alphaflow/backend/alphaflow-workflow/src/workflow.rs:51-61 | deleting id from both indexes keeps them consistent over the remaining names |
| Workflow.PushSource | alphaflow/backend/alphaflow-workflow/src/workflow.rs:97-103 | pushing s onto each target's destination bucket adds, for each target, as many s entries as that target occurs; no bucket is empty |
| Workflow.ReverseIndex | alphaflow/backend/alphaflow-workflow/src/workflow.rs:94-105 | the rebuilt destination index is inverse to the source index and has no empty bucket |
| Workflow.ClosedReverse | alphaflow/backend/alphaflow-workflow/src/workflow.rs:94-105 | a rebuilt destination index mentions only known nodes when the source index does |
| Workflow.Available | alphaflow/backend/alphaflow-workflow/src/workflow.rs:184-190 | no more outputs than parents |
| Workflow.AvailableAllPresent | alphaflow/backend/alphaflow-workflow/src/workflow.rs:184-190 | when every parent has a result, the outputs are the parents' results in parent order |
| Workflow.AvailableNonePresent | alphaflow/backend/alphaflow-workflow/src/workflow.rs:184-190 | when no parent has a result, there are no outputs |
| Workflow.MergeInputs | alphaflow/backend/alphaflow-workflow/src/workflow.rs:191-197 | one available output is passed as is; none gives `{}`; several give an array of them in parent order |
| Workflow.SingleParentPassThrough | alphaflow/backend/alphaflow-workflow/src/workflow.rs:191-192 | a single parent with a result is passed through unchanged |
| Workflow.MapFields | alphaflow/backend/alphaflow-workflow/src/workflow.rs:217-235 | success is an object keyed by the mapped fields; failure exactly when some field's expression fails |
| Workflow.MapMulti | alphaflow/backend/alphaflow-workflow/src/workflow.rs:217-235 | the loop over the fields in key order computes `MapFields` |
| Workflow.MapInput | alphaflow/backend/alphaflow-workflow/src/workflow.rs:199-239 | without a mapping the merged input passes through; a single expression runs over `{"$json": merged}` and its value or its error (as InvalidConfig naming the node and the expression) is the result; a multi-field mapping fails exactly when some field's expression fails and otherwise gives an object with exactly the mapping's fields |
| Workflow.Workflow.constructor | alphaflow/backend/alphaflow-workflow/src/workflow.rs:30-43 | a new workflow has the given id, no nodes, empty indexes and default settings, and is valid |
| Workflow.Workflow.AddNode | alphaflow/backend/alphaflow-workflow/src/workflow.rs:46-48 | the node is stored under its own name, replacing any earlier node of that name; the indexes are unchanged and stay valid |
| Workflow.Workflow.RemoveNode | alphaflow/backend/alphaflow-workflow/src/workflow.rs:51-61 | the id is gone from the nodes, from both indexes' keys and from every bucket; validity is kept |
| Workflow.Workflow.ConnectNodes | alphaflow/backend/alphaflow-workflow/src/workflow.rs:64-81 | a missing source, then a missing target, gives its "not found" error and changes nothing; otherwise target is appended to the source bucket and source to the target bucket; validity is kept |
| Workflow.Workflow.DisconnectNodes | alphaflow/backend/alphaflow-workflow/src/workflow.rs:84-91 | every target entry leaves the source's bucket and every source entry the target's; nothing else changes; validity is kept |
| Workflow.Workflow.BuildReverseConnections | alphaflow/backend/alphaflow-workflow/src/workflow.rs:94-105 | the destination index becomes the inverse of the unchanged source index; validity follows when the source index names known nodes |
| Workflow.Workflow.ParentsMirrorChildren | alphaflow/backend/alphaflow-workflow/src/workflow.rs:112-125 | in a valid workflow t lists s as a parent exactly as often as s lists t as a child |
| Workflow.Workflow.GetChildren | alphaflow/backend/alphaflow-workflow/src/workflow.rs:112-117 | the source index's bucket, empty for a node without one; in a valid workflow every child is a node that lists this one as a parent |
| Workflow.Workflow.GetParents | alphaflow/backend/alphaflow-workflow/src/workflow.rs:120-125 | the destination index's bucket, empty for a node without one; in a valid workflow every parent is a node |
| Workflow.Workflow.StartIffNoIncoming | alphaflow/backend/alphaflow-workflow/src/workflow.rs:147-155 | in a valid workflow a node is a start node exactly when it is enabled and no node lists it as a child |
| Workflow.Workflow.StartNodes | alphaflow/backend/alphaflow-workflow/src/workflow.rs:147-155 | the start list holds exactly the enabled nodes without parents, each once |
| Workflow.Workflow.MergeParentOutputs | alphaflow/backend/alphaflow-workflow/src/workflow.rs:184-197 | the loop over the parents computes `MergeInputs` |
| Workflow.Workflow.ExecuteNode | alphaflow/backend/alphaflow-workflow/src/workflow.rs:165-262 | one node's turn is the reference step: skip, InvalidConfig for an unregistered type or a failing mapping, an execution error, or the output |
| Workflow.Workflow.RunNode | alphaflow/backend/alphaflow-workflow/src/workflow.rs:165-181 | a node is skipped exactly when it is missing or disabled; it runs only with a registered type; an unregistered type stops the run with an invalid-configuration error naming the type and the node |
| Workflow.Workflow.Bfs | alphaflow/backend/alphaflow-workflow/src/workflow.rs:163-271 | the results only grow, and only with keys of workflow nodes; a pending queue with no fuel left gives no outcome |
| Workflow.Workflow.Run | alphaflow/backend/alphaflow-workflow/src/workflow.rs:145-272 | the run starts from exactly the start nodes, each once, and its outcome is the breadth-first reference run `Bfs` |
| Workflow.Workflow.BfsResultsRunnable | alphaflow/backend/alphaflow-workflow/src/workflow.rs:163-268 | a finished run keeps earlier results and only adds results of enabled nodes with registered types |
| Workflow.Workflow.UnregisteredStopsRun | alphaflow/backend/alphaflow-workflow/src/workflow.rs:171-180 | an enabled node whose type is not registered stops the run with that InvalidConfig error |
| Workflow.Workflow.NoStartEmptyRun | alphaflow/backend/alphaflow-workflow/src/workflow.rs:156-158 | with no start node the run succeeds at once with no results |
| DirectedGraphs.NamedOnly | alphaflow/backend/alphaflow-workflow/src/directed_graph.rs:51-61 | no more names than ids (`filter_map(index_to_name)`) |
| DirectedGraphs.NamedOnlyMembers | alphaflow/backend/alphaflow-workflow/src/directed_graph.rs:51-61 | each named id contributes its name, and nothing else appears |
| DirectedGraphs.Known | alphaflow/backend/alphaflow-workflow/src/directed_graph.rs:41-45 | exactly the entries that are known names |
| DirectedGraphs.ReconnectLinks | alphaflow/backend/alphaflow-workflow/src/directed_graph.rs:79-83 | the reconnection edges are exactly those from a named former parent to a named former child |
| DirectedGraphs.CountInDegrees | alphaflow/backend/alphaflow-workflow/src/directed_graph.rs:226-240 | each name's in-degree counts the edges into it from named nodes |
| DirectedGraphs.ZeroDegreeQueue | alphaflow/backend/alphaflow-workflow/src/directed_graph.rs:242-247 | the queue holds exactly the names of in-degree zero, each once |
| DirectedGraphs.ReleaseChildren | alphaflow/backend/alphaflow-workflow/src/directed_graph.rs:253-263 | each child's in-degree drops by the edges from the emitted node; the queue is extended by exactly the children that reach zero, each once |
| DirectedGraphs.KahnStep | alphaflow/backend/alphaflow-workflow/src/directed_graph.rs:250-264 | one round of the main loop preserves the loop invariant: emitted names, counts, queue and order agree |
| DirectedGraphs.KahnStuck | alphaflow/backend/alphaflow-workflow/src/directed_graph.rs:265-268 | when the queue empties before every name is emitted, a cycle runs through named nodes |
| DirectedGraphs.KahnFinished | alphaflow/backend/alphaflow-workflow/src/directed_graph.rs:249-269 | when every name is emitted, every edge between named nodes goes forward and no cycle runs through named nodes |
| DirectedGraphs.Heads | alphaflow/backend/alphaflow-workflow/src/directed_graph.rs:147-158 | one head per entry: entry i's name |
| DirectedGraphs.ListedUnique | alphaflow/backend/alphaflow-workflow/src/directed_graph.rs:170-174 | when a name heads exactly one entry, the children imported for it are that entry's known children |
| DirectedGraphs.SeenCoversReachable | alphaflow/backend/alphaflow-workflow/src/directed_graph.rs:309-318 | a set holding the start's named successors and closed under named successors holds every reachable name |
| DirectedGraphs.DirectedGraph.constructor | alphaflow/backend/alphaflow-workflow/src/directed_graph.rs:28-33 | a new graph has no nodes, names or edges, and is valid |
| DirectedGraphs.DirectedGraph.IndexToName | alphaflow/backend/alphaflow-workflow/src/directed_graph.rs:179-187 | the name bound to the node, exactly when there is one |
| DirectedGraphs.DirectedGraph.AddNode | alphaflow/backend/alphaflow-workflow/src/directed_graph.rs:35-38 | a fresh node carries the data and the name is bound to it, rebinding a name already in use; edges unchanged |
| DirectedGraphs.DirectedGraph.AddConnection | alphaflow/backend/alphaflow-workflow/src/directed_graph.rs:40-46 | an edge is appended exactly when both names are known; otherwise nothing changes |
| DirectedGraphs.DirectedGraph.RemoveConnection | alphaflow/backend/alphaflow-workflow/src/directed_graph.rs:273-283 | one from→to edge is removed when both names are known; nothing else changes |
| DirectedGraphs.DirectedGraph.UpdateConnection | alphaflow/backend/alphaflow-workflow/src/directed_graph.rs:287-298 | the edges are those of `remove_connection` on the old pair followed by `add_connection` on the new pair |
| DirectedGraphs.DirectedGraph.NeighbourNames | alphaflow/backend/alphaflow-workflow/src/directed_graph.rs:150-154 | exactly the named nodes joined to n by an edge in the given direction |
| DirectedGraphs.DirectedGraph.GetDirectChildren | alphaflow/backend/alphaflow-workflow/src/directed_graph.rs:87-96 | none for an unknown name; otherwise one weight per outgoing edge, each the weight of that edge's target, and the weight of every node an edge leads to appears |
| DirectedGraphs.DirectedGraph.GetDirectParents | alphaflow/backend/alphaflow-workflow/src/directed_graph.rs:98-107 | none for an unknown name; otherwise one weight per incoming edge, each the weight of that edge's source, and the weight of every node with an edge into it appears |
| DirectedGraphs.DirectedGraph.ConnectRow | alphaflow/backend/alphaflow-workflow/src/directed_graph.rs:80-82 | appends an edge p→c for each c, wherever both are named |
| DirectedGraphs.DirectedGraph.ConnectAll | alphaflow/backend/alphaflow-workflow/src/directed_graph.rs:79-83 | appends an edge p→c for each p and c, wherever both are named |
| DirectedGraphs.DirectedGraph.RemoveNode | alphaflow/backend/alphaflow-workflow/src/directed_graph.rs:49-85 | an unknown name changes nothing; otherwise the name, its node and every edge touching it go, and each former named parent is linked to each former named child |
| DirectedGraphs.DirectedGraph.RenameNode | alphaflow/backend/alphaflow-workflow/src/directed_graph.rs:342-356 | the old name's node is rebound to the new name with the same edges and weight; a missing old name changes nothing |
| DirectedGraphs.DirectedGraph.NamesWithoutEdges | alphaflow/backend/alphaflow-workflow/src/directed_graph.rs:198-221 | exactly the names with no edge on the chosen side, each once |
| DirectedGraphs.DirectedGraph.GetRootNodes | alphaflow/backend/alphaflow-workflow/src/directed_graph.rs:198-208 | exactly the names that no edge enters, each once |
| DirectedGraphs.DirectedGraph.GetLeafNodes | alphaflow/backend/alphaflow-workflow/src/directed_graph.rs:211-221 | exactly the names that no edge leaves, each once |
| DirectedGraphs.DirectedGraph.Dfs | alphaflow/backend/alphaflow-workflow/src/directed_graph.rs:301-338 | the visited set grows; it gains the current node's named neighbours, is closed under neighbours for what it added, and adds only reachable names |
| DirectedGraphs.DirectedGraph.GetAllChildren | alphaflow/backend/alphaflow-workflow/src/directed_graph.rs:301-307 | exactly the names reachable by one or more edges through named nodes (the start only on a cycle); empty for an unknown name |
| DirectedGraphs.DirectedGraph.GetAllParents | alphaflow/backend/alphaflow-workflow/src/directed_graph.rs:321-327 | exactly the names from which the node is reachable by one or more edges |
| DirectedGraphs.DirectedGraph.TopologicalSort | alphaflow/backend/alphaflow-workflow/src/directed_graph.rs:225-270 | `Err("Graph has a cycle")` exactly when a cycle runs through named nodes; otherwise every name once, each edge going forward |
| DirectedGraphs.DirectedGraph.ToWorkflow | alphaflow/backend/alphaflow-workflow/src/directed_graph.rs:147-158 | every name heads exactly one entry, listed with its named children |
| DirectedGraphs.DirectedGraph.ConnectEntries | alphaflow/backend/alphaflow-workflow/src/directed_graph.rs:170-174 | after connecting every entry, each name's children are the known children its entries list |
| DirectedGraphs.DirectedGraph.FromWorkflow | alphaflow/backend/alphaflow-workflow/src/directed_graph.rs:161-176 | a fresh valid graph whose names are exactly the entries' heads, each carrying `to_t` of its name, and whose children per name are the listed children that name a node |
| DirectedGraphs.DirectedGraph.SortAgreesWithIsDag | alphaflow/backend/alphaflow-workflow/src/directed_graph.rs:109-111 | an acyclic graph sorts; when every node is named, sorting succeeds exactly when `is_dag` holds |
| DirectedGraphs.RoundTrip | alphaflow/backend/alphaflow-workflow/src/directed_graph.rs:147-176 | `from_workflow(to_workflow(g))` has the same names and, per name, the same named children |
| GraphPaths.CycleFromPredecessors | alphaflow/backend/alphaflow-workflow/src/directed_graph.rs:265-268 | a non-empty set whose every node has a predecessor inside it contains a cycle |
| GraphPaths.ClosedContainsReachable | alphaflow/backend/alphaflow-workflow/src/directed_graph.rs:309-318 | a set holding a node's successors and closed under successors holds everything reachable from it |
| Nodes.NewNode | alphaflow/backend/alphaflow-nodes/src/node.rs:38-49 | the node has the given name and type, is enabled, has null parameters and no mapping, display name, description or custom configuration |
| Nodes.WithInputMapping | alphaflow/backend/alphaflow-nodes/src/node.rs:52-55 | sets the mapping and changes no other field |
| Nodes.WithParameters | alphaflow/backend/alphaflow-nodes/src/node.rs:58-61 | sets the parameters and changes no other field |
| Nodes.Disabled | alphaflow/backend/alphaflow-nodes/src/node.rs:64-67 | marks the node disabled and changes no other field |
| Nodes.WithDisplayName | alphaflow/backend/alphaflow-nodes/src/node.rs:70-73 | sets the display name and changes no other field |
| Nodes.WithDescription | alphaflow/backend/alphaflow-nodes/src/node.rs:76-79 | sets the description and changes no other field |
| Nodes.WithCustomConfig | alphaflow/backend/alphaflow-nodes/src/node.rs:82-85 | sets the custom configuration and changes no other field |
| Nodes.BuildersCommute | alphaflow/backend/alphaflow-nodes/src/node.rs:52-85 | builders that set different fields can be applied in either order |
| Nodes.BuildersIdempotent | alphaflow/backend/alphaflow-nodes/src/node.rs:52-73 | applying a builder twice with the same value is applying it once |
| Nodes.ChainedBuild | alphaflow/backend/alphaflow-nodes/src/node.rs:93-113 | a chain of builders on a new node yields every field that was set, with the others at their defaults |
| Registry.NodeRegistry.constructor | alphaflow/backend/alphaflow-nodes/src/registry.rs:19-23 | a new registry is empty |
| Registry.NodeRegistry.Register | alphaflow/backend/alphaflow-nodes/src/registry.rs:26-28 | the node is stored under its own name, silently replacing an earlier one; lookups of other names are unchanged |
| Registry.NodeRegistry.Get | alphaflow/backend/alphaflow-nodes/src/registry.rs:31-33 | found exactly when the name is registered, the stored implementation, which in a valid registry reports the name asked for |
| Registry.NodeRegistry.ListNodes | alphaflow/backend/alphaflow-nodes/src/registry.rs:36-38 | exactly the registered names, each once, in no particular order |
| Registry.EmptyRegistry | alphaflow/backend/alphaflow-nodes/src/registry.rs:100-105 | an empty registry finds nothing and lists nothing |
| Registry.RegisterThenList | alphaflow/backend/alphaflow-nodes/src/registry.rs:91-98 | one registration lists exactly that node's name |
| HttpParams.FromConfig | alphaflow/backend/alphaflow-nodes/src/http/http_params.rs:8-20 | the URL is kept; a missing method defaults to "GET" |
| HttpParams.Validate | alphaflow/backend/alphaflow-nodes/src/http/http_params.rs:24-30 | an error exactly when the URL is blank after trimming, and then "URL cannot be empty" |
| HttpParams.NonBlankUrlPasses | alphaflow/backend/alphaflow-nodes/src/http/http_params.rs:25-29 | a URL with any character that is not white space passes |
| HttpParams.MethodIgnored | alphaflow/backend/alphaflow-nodes/src/http/http_params.rs:28 | the method does not affect validation |
| OpenAiParams.FromConfig | alphaflow/backend/alphaflow-nodes/src/openai/openai_params.rs:6-30 | the key and prompt are kept; a missing model defaults to "gpt-4o mini"; a missing base URL or system content defaults to "" |
| OpenAiParams.Validate | alphaflow/backend/alphaflow-nodes/src/openai/openai_params.rs:34-45 | passes exactly when key, prompt and base URL are all non-blank; otherwise the first blank one in that order names the error |
| OpenAiParams.OptionalFieldsIgnored | alphaflow/backend/alphaflow-nodes/src/openai/openai_params.rs:34-45 | model, system content, temperature and token limit do not affect validation |
| Registry.RegisterThenGet | alphaflow/backend/alphaflow-nodes/src/registry.rs:26-33 | a registered node is found under its name, a second registration under that name replaces it without error, and an unregistered name finds nothing |
| TaskModel.QosCmp | alphaflow/backend/alphaflow-engine/store/src/model.rs:20-36 | two service levels compare Equal exactly when they are the same level, and Greater exactly when user-interactive meets background |
| TaskModel.PendingCmp | alphaflow/backend/alphaflow-engine/store/src/model.rs:58-66 | Equal exactly for identical tasks; Greater exactly for a higher level, or the same level and a larger id; Less exactly in the mirrored cases |
| TaskModel.PendingOrder | alphaflow/backend/alphaflow-engine/store/src/model.rs:53-66 | pending tasks compare Equal exactly when level and id agree; the order is antisymmetric; one task is Greater than another exactly when its level is higher, or the levels agree and its id is larger (the later task goes first) |
| TaskModel.PendingLeTransitive | alphaflow/backend/alphaflow-engine/store/src/model.rs:53-66 | the pending-task order is transitive |
| TaskModel.EqualityIgnoresQos | alphaflow/backend/alphaflow-engine/store/src/model.rs:48-66 | two pending tasks with the same id are equal by id alone, yet the order ranks them Less, so equality and the order disagree |
| TaskModel.StatePredicates | alphaflow/backend/alphaflow-engine/store/src/model.rs:84-100 | each state predicate holds exactly for its own state, and no state is both done and cancelled |
| TaskModel.NewTask | alphaflow/backend/alphaflow-engine/store/src/model.rs:128-141 | a new task carries the given handler, id, content and service level, is pending and still holds both ends of its result channel |
| TaskModel.CloneTask | alphaflow/backend/alphaflow-engine/store/src/model.rs:114-126 | a clone copies id, handler, content, level and state but holds neither end of the result channel |
| TaskModel.SetState | alphaflow/backend/alphaflow-engine/store/src/model.rs:147-149 | sets the state and changes no other field |
| TaskModel.ResultOf | alphaflow/backend/alphaflow-engine/store/src/model.rs:162-168 | the result reports the task's id and state |
| TaskModel.CloneOfNew | alphaflow/backend/alphaflow-engine/store/src/model.rs:114-141 | cloning a new task only drops the channel ends, and its result is (id, Pending) |
| TaskStore.TaskStore.constructor | alphaflow/backend/alphaflow-engine/store/src/task_store.rs:22-27 | a new store is empty and its id counter starts at 1 |
| TaskStore.TaskStore.InsertTask | alphaflow/backend/alphaflow-engine/store/src/task_store.rs:29-31 | the task is stored under its id, replacing any earlier one, and the counter is unchanged |
| TaskStore.TaskStore.RemoveTask | alphaflow/backend/alphaflow-engine/store/src/task_store.rs:33-35 | returns what was stored under the id and removes it, leaving the rest |
| TaskStore.TaskStore.ReadTask | alphaflow/backend/alphaflow-engine/store/src/task_store.rs:41-43 | None exactly when the id is not stored, otherwise the stored task |
| TaskStore.TaskStore.SetTaskState | alphaflow/backend/alphaflow-engine/store/src/task_store.rs:37-39 | reports whether the id is stored and, if so, changes that task's state and nothing else |
| TaskStore.TaskStore.Clear | alphaflow/backend/alphaflow-engine/store/src/task_store.rs:45-53 | empties the store and sends a Cancel result for exactly the tasks that still held a result channel |
| TaskStore.TaskStore.NextTaskId | alphaflow/backend/alphaflow-engine/store/src/task_store.rs:55-57 | returns the counter and advances it by one modulo 2^32, leaving the tasks alone |
| TaskStore.IssueIds | alphaflow/backend/alphaflow-engine/store/src/task_store.rs:22-27 | a fresh store hands out the ids 1, 2, ..., n in increasing order |
| TaskStore.WrapAround | alphaflow/backend/alphaflow-engine/store/src/task_store.rs:55-57 | after 2^32 - 1 the counter wraps to 0 |
| TaskStore.InsertReadRemove | alphaflow/backend/alphaflow-engine/store/src/task_store.rs:29-43 | an inserted task reads back and removes as itself, and is gone afterwards |
| TaskQueue.MaxTask | alphaflow/backend/alphaflow-engine/queue/src/task_queue.rs:84-96 | a task list's head is one of its tasks and no task ranks above it |
| TaskQueue.RemoveOne | alphaflow/backend/alphaflow-engine/queue/src/task_queue.rs:84-96 | removing a present task takes exactly one copy away; removing an absent one changes nothing |
| TaskQueue.Peek | alphaflow/backend/alphaflow-engine/queue/src/task_queue.rs:120-122 | nothing exactly for an empty list; otherwise one of its tasks that no task of the list ranks above |
| TaskQueue.PopTask | alphaflow/backend/alphaflow-engine/queue/src/task_queue.rs:84-110 | popping an empty list yields nothing; otherwise it yields a task of the list that no other task ranks above, and the rest are the list minus that task |
| TaskQueue.LatestFirst | alphaflow/backend/alphaflow-engine/store/src/model.rs:53-66 | among tasks of one service level the pop yields the largest id |
| TaskQueue.InteractiveFirst | alphaflow/backend/alphaflow-engine/store/src/model.rs:20-36 | if any user-interactive task is listed, the pop yields a user-interactive task |
| TaskQueue.TaskListOrder | alphaflow/backend/alphaflow-engine/queue/src/task_queue.rs:120-129 | an empty list ranks below a non-empty one, two non-empty lists rank as their heads do, and the order is antisymmetric |
| TaskQueue.TaskListCmp | alphaflow/backend/alphaflow-engine/queue/src/task_queue.rs:120-129 | two lists are Equal exactly when both are empty or their greatest tasks coincide, and Less exactly when only the right one has tasks or its greatest task ranks above the left one's |
| TaskQueue.Swap | alphaflow/backend/alphaflow-engine/queue/src/task_queue.rs:19 | swapping two heap slots keeps the heap's contents |
| TaskQueue.SiftUp | alphaflow/backend/alphaflow-engine/queue/src/task_queue.rs:54 | restoring the heap upwards keeps its contents and every entry's list |
| TaskQueue.SiftDownToBottom | alphaflow/backend/alphaflow-engine/queue/src/task_queue.rs:69 | restoring the heap downwards keeps its contents and every entry's list |
| TaskQueue.HeapPush | alphaflow/backend/alphaflow-engine/queue/src/task_queue.rs:54 | pushing a handler adds exactly that handler to the heap |
| TaskQueue.HeapPop | alphaflow/backend/alphaflow-engine/queue/src/task_queue.rs:69 | popping yields the root, and the rest plus the root are the heap's contents |
| TaskQueue.ListLeFacts | alphaflow/backend/alphaflow-engine/queue/src/task_queue.rs:120-129 | the task-list order is reflexive and transitive |
| TaskQueue.RootIsGreatest | alphaflow/backend/alphaflow-engine/queue/src/task_queue.rs:19 | in an ordered heap no handler's list ranks above the root's |
| TaskQueue.TaskQueue.constructor | alphaflow/backend/alphaflow-engine/queue/src/task_queue.rs:23-25 | a new queue has no lists and an empty heap |
| TaskQueue.TaskQueue.Push | alphaflow/backend/alphaflow-engine/queue/src/task_queue.rs:27-57 | a task without content is dropped; otherwise it is appended to its handler's list, the heap is pushed only when the handler had no list, and the size grows by one |
| TaskQueue.TaskQueue.AppendToList | alphaflow/backend/alphaflow-engine/queue/src/task_queue.rs:39-48 | adds the task to an existing list and leaves the heap alone |
| TaskQueue.TaskQueue.AddList | alphaflow/backend/alphaflow-engine/queue/src/task_queue.rs:49-55 | creates the handler's list with the one task and pushes the handler onto the heap |
| TaskQueue.TaskQueue.Clear | alphaflow/backend/alphaflow-engine/queue/src/task_queue.rs:59-62 | empties both the index and the heap |
| TaskQueue.TaskQueue.MutHead | alphaflow/backend/alphaflow-engine/queue/src/task_queue.rs:65-80 | with an empty heap returns None and changes nothing; otherwise applies the step to the root's list, returns its result, and keeps the list if it is still non-empty or drops it from the index |
| TaskQueue.TaskQueue.PutBack | alphaflow/backend/alphaflow-engine/queue/src/task_queue.rs:74-75 | stores the changed list and pushes its handler back onto the heap |
| TaskQueue.TaskQueue.DropList | alphaflow/backend/alphaflow-engine/queue/src/task_queue.rs:76-78 | removes the emptied list from the index and leaves the popped heap |
| TaskQueue.TaskQueue.PopHead | alphaflow/backend/alphaflow-engine/queue/src/task_queue.rs:65-80 | None exactly when the queue is empty; otherwise one task of the root's list that none of that list ranks above, removed from that list only, and the size drops by one |
| TaskQueue.AddedList | alphaflow/backend/alphaflow-engine/queue/src/task_queue.rs:49-55 | a new list adds its handler to the keys and one task to the total |
| TaskQueue.PoppedTask | alphaflow/backend/alphaflow-engine/queue/src/task_queue.rs:65-80 | popping the root's list removes exactly the popped task, leaves other lists alone and lowers the total by one |
| TaskQueue.TotalRemove | alphaflow/backend/alphaflow-engine/queue/src/task_queue.rs:18 | the total splits into one list's length plus the rest |
| TaskQueue.EmptyIffNoTasks | alphaflow/backend/alphaflow-engine/queue/src/task_queue.rs:16-20 | the heap is empty exactly when no task is queued and exactly when the index is empty |
| TaskQueue.TotalAgree | alphaflow/backend/alphaflow-engine/queue/src/task_queue.rs:18 | lists with equal contents give equal totals |
| TaskQueue.TotalReplace | alphaflow/backend/alphaflow-engine/queue/src/task_queue.rs:18 | replacing one list changes the total by the difference of the lengths |
| TaskQueue.ClearThenPop | alphaflow/backend/alphaflow-engine/queue/src/task_queue.rs:59-80 | after clear, the next pop yields nothing |
| TaskQueue.StaleHeapOrder | alphaflow/backend/alphaflow-engine/queue/src/task_queue.rs:39-48 | appending a higher-ranked task to a list that is not the root does not re-order the heap, so the next pop yields the root's background task although a user-interactive one ranks above it |
| TaskQueue.TwoHandlers | alphaflow/backend/alphaflow-engine/queue/src/task_queue.rs:49-55 | a second handler whose task ranks higher becomes the root |
| TaskQueue.FirstList | alphaflow/backend/alphaflow-engine/queue/src/task_queue.rs:54 | pushing onto an empty heap gives the one-entry heap |
| TaskQueue.SecondListOvertakes | alphaflow/backend/alphaflow-engine/queue/src/task_queue.rs:54 | a list whose head ranks higher moves above the existing root |
| Orchestrator.Orchestrator.constructor | alphaflow/backend/alphaflow-engine/orch/src/orchestrator.rs:13-15 | keeps the given queue and store |
| Orchestrator.Orchestrator.AddTask | alphaflow/backend/alphaflow-engine/orch/src/orchestrator.rs:19-30 | takes the next id, stores the clone of the new task under it, queues it under its handler, and returns the id |
| Orchestrator.Orchestrator.ProcessOne | alphaflow/backend/alphaflow-engine/orch/src/orchestrator.rs:34-45 | None exactly when the queue is empty; otherwise the id of the highest-ranked task of the root list, removed from the store; the root's list loses exactly that task and every other list is unchanged |
| Orchestrator.Orchestrator.RunAll | alphaflow/backend/alphaflow-engine/orch/src/orchestrator.rs:48-51 | leaves the queue empty |
| Orchestrator.AddAndProcess | alphaflow/backend/alphaflow-engine/orch/src/orchestrator.rs:60-76 | the first task gets id 1, processing yields 1, and a second process yields nothing |
| Orchestrator.RunAllDrains | alphaflow/backend/alphaflow-engine/orch/src/orchestrator.rs:79-93 | after running all, nothing is left to process |
| TaskDispatcher.OutcomeState | alphaflow/backend/alphaflow-engine/queue/src/task_dispatcher.rs:100-115 | completion gives Done, an error Failure and a timeout Timeout |
| TaskDispatcher.Settle | alphaflow/backend/alphaflow-engine/queue/src/task_dispatcher.rs:78-124 | a task missing from the store, without a result channel, or without content when not cancelled is dropped; a cancelled task reports Cancel without running; otherwise it reports Cancel when no handler is registered and the outcome's state when one is |
| TaskDispatcher.BuildContext | alphaflow/backend/alphaflow-engine/queue/src/task_dispatcher.rs:129-150 | the context has null input, globals and environment, no pinned data, and parameters holding only the text or the blob's size |
| TaskDispatcher.TaskDispatcher.constructor | alphaflow/backend/alphaflow-engine/queue/src/task_dispatcher.rs:34-44 | a new dispatcher has an empty queue, store and handler table and has signalled nothing |
| TaskDispatcher.TaskDispatcher.RegisterNode | alphaflow/backend/alphaflow-engine/queue/src/task_dispatcher.rs:48-54 | registers the node under its name, replacing any earlier one |
| TaskDispatcher.TaskDispatcher.UnregisterNode | alphaflow/backend/alphaflow-engine/queue/src/task_dispatcher.rs:56-60 | removes the name from the handler table |
| TaskDispatcher.TaskDispatcher.Notify | alphaflow/backend/alphaflow-engine/queue/src/task_dispatcher.rs:183-185 | signals false |
| TaskDispatcher.TaskDispatcher.ClearTask | alphaflow/backend/alphaflow-engine/queue/src/task_dispatcher.rs:175-177 | empties the store and reports Cancel for the tasks that held a result channel |
| TaskDispatcher.TaskDispatcher.Stop | alphaflow/backend/alphaflow-engine/queue/src/task_dispatcher.rs:63-67 | signals true, empties queue and store, and reports Cancel for the tasks that held a result channel |
| TaskDispatcher.TaskDispatcher.AddTask | alphaflow/backend/alphaflow-engine/queue/src/task_dispatcher.rs:152-163 | a done task is ignored; any other task is queued, stored under its id and signalled |
| TaskDispatcher.TaskDispatcher.ReadTask | alphaflow/backend/alphaflow-engine/queue/src/task_dispatcher.rs:165-167 | the stored task, or None when the id is not stored |
| TaskDispatcher.TaskDispatcher.CancelTask | alphaflow/backend/alphaflow-engine/queue/src/task_dispatcher.rs:169-173 | marks a stored task cancelled and changes nothing else |
| TaskDispatcher.TaskDispatcher.NextTaskId | alphaflow/backend/alphaflow-engine/queue/src/task_dispatcher.rs:179-181 | returns the store's counter and advances it modulo 2^32 |
| TaskDispatcher.TaskDispatcher.ProcessNextTask | alphaflow/backend/alphaflow-engine/queue/src/task_dispatcher.rs:75-125 | with an empty queue changes nothing; otherwise pops the highest-ranked task (the root's list loses exactly that task, every other list is unchanged), removes it from the store and reports, signals and returns exactly as Settle decides |
| TaskDispatcher.WithOneTask | alphaflow/backend/alphaflow-engine/queue/src/task_dispatcher.rs:152-163 | adding one task to a new dispatcher queues and stores it and signals once |
| TaskDispatcher.UnknownHandlerCancels | alphaflow/backend/alphaflow-engine/queue/src/task_dispatcher.rs:116-120 | a task whose handler is not registered is reported Cancel and counts as processed |
| TaskDispatcher.RegisteredHandlerRuns | alphaflow/backend/alphaflow-engine/queue/src/task_dispatcher.rs:92-115 | a task whose handler is registered is reported with the outcome's state |
| TaskDispatcher.CancelledBeforeRun | alphaflow/backend/alphaflow-engine/queue/src/task_dispatcher.rs:81-86 | a task cancelled before it runs is reported Cancel and is not processed |
| TaskDispatcher.ClearedTaskStaysQueued | alphaflow/backend/alphaflow-engine/queue/src/task_dispatcher.rs:175-177 | clearing the store reports the task cancelled but leaves it queued; processing it then yields nothing more |
| TaskDispatcher.StopThenProcess | alphaflow/backend/alphaflow-engine/queue/src/task_dispatcher.rs:63-67 | after stop, processing finds nothing to do |
| JmesAst.AdjustEndpoint | alphaflow/backend/alphaflow-jmes/src/interpreter.rs:357-367 | a slice endpoint is clamped into 0..len for a forward step and into -1..len-1 for a backward step |
| JmesAst.Reverse | alphaflow/backend/alphaflow-jmes/src/interpreter.rs:357-367 | reversal keeps the length |
| JmesAst.SliceWhole | alphaflow/backend/alphaflow-jmes/src/interpreter.rs:357-367 | the slice with no bounds and step 1 is the whole array |
| JmesAst.SliceForward | alphaflow/backend/alphaflow-jmes/src/interpreter.rs:357-367 | a forward slice with step 1 from i is the suffix from i |
| JmesAst.SliceReversed | alphaflow/backend/alphaflow-jmes/src/interpreter.rs:357-367 | the slice with no bounds and step -1 is the array reversed |
| JmesAst.SliceBackward | alphaflow/backend/alphaflow-jmes/src/interpreter.rs:357-367 | a backward slice with step -1 from i down is the reversed prefix up to i |
| JmesAst.ReverseSnoc | alphaflow/backend/alphaflow-jmes/src/interpreter.rs:357-367 | reversing s + [x] puts x first |
| JmesAst.SliceFromElements | alphaflow/backend/alphaflow-jmes/src/interpreter.rs:357-367 | every element of a slice is an element of the array |
| JmesAst.IsTruthy | alphaflow/backend/alphaflow-jmes/src/interpreter.rs:242-261 | falsy exactly for null, false, the empty string, the empty array and the empty object |
| JmesAst.Compare | alphaflow/backend/alphaflow-jmes/src/interpreter.rs:270-277 | equality and inequality always compare, as value equality; an ordering compares only two numbers and is otherwise null |
| JmesAst.SliceItems | alphaflow/backend/alphaflow-jmes/src/interpreter.rs:357-367 | every element of a slice is an element of the array |
| JmesAst.SliceOf | alphaflow/backend/alphaflow-jmes/src/interpreter.rs:357-367 | a slice exists exactly for an array, and holds only its elements |
| JmesAst.FromJson | alphaflow/backend/alphaflow-jmes/src/jmes_runtime.rs:119-128 | null, arrays and objects map to their own kinds, with the same length and the same keys; no expression reference arises |
| JmesAst.ToJson | alphaflow/backend/alphaflow-jmes/src/jmes_runtime.rs:119-128 | null, arrays and objects map back to their own kinds, with the same length and the same keys; an expression reference becomes its fixed text |
| JmesAst.JsonRoundTrip | alphaflow/backend/alphaflow-jmes/src/jmes_runtime.rs:119-128 | turning JSON into a search value and back gives the same JSON |
| JmesParser.ColonsStep | alphaflow/backend/alphaflow-jmes/src/parser.rs:406-415 | the colon count of a token prefix grows by one exactly at a colon |
| JmesParser.SliceParts | alphaflow/backend/alphaflow-jmes/src/parser.rs:393-414 | the start, stop and step a bracket token run fills: always three parts, each number going to the part numbered by the colons before it |
| JmesParser.SlicePartsStep | alphaflow/backend/alphaflow-jmes/src/parser.rs:397-404 | one more token changes the parts only when it is a number after at most two colons, and then sets exactly the part its colon count selects |
| JmesParser.SlicePartsExamples | alphaflow/backend/alphaflow-jmes/src/parser.rs:393-414 | `[1:]` fills only the start, `[::-1]` only the step and `[:2:]` only the stop |
| JmesParser.Parser.constructor | alphaflow/backend/alphaflow-jmes/src/parser.rs:42-49 | the parser starts at offset 0 on the given tokens, with nothing consumed |
| JmesParser.Parser.Advance | alphaflow/backend/alphaflow-jmes/src/parser.rs:69-84 | an empty queue yields Eof at the current offset and changes nothing; otherwise the front token is removed and returned with its position, which becomes the offset |
| JmesParser.Parser.Parse | alphaflow/backend/alphaflow-jmes/src/parser.rs:52-66 | a successful parse has consumed every token up to Eof |
| JmesParser.Parser.Expr | alphaflow/backend/alphaflow-jmes/src/parser.rs:108-117 | a successful expression consumes at least one token and stops at a token whose binding power does not exceed rbp |
| JmesParser.Parser.Nud | alphaflow/backend/alphaflow-jmes/src/parser.rs:119-207 | `{}` gives the empty multi-hash, a quoted identifier before `(` is rejected as a function name, an identifier gives a field, and success consumes a token |
| JmesParser.Parser.ParseMultiHash | alphaflow/backend/alphaflow-jmes/src/parser.rs:163-179 | a successful object literal is a multi-hash at the opening offset and ends at `}`; `{}` has no pairs |
| JmesParser.Parser.Led | alphaflow/backend/alphaflow-jmes/src/parser.rs:209-267 | a call on a non-field is rejected, a call on a field gives a function of that name, a filter gives a projection over the left side whose branch is a condition returning the element |
| JmesParser.Parser.LedIndex | alphaflow/backend/alphaflow-jmes/src/parser.rs:223-226 | a bracket followed by a number or a colon gives a subexpression at the bracket's offset whose left side is the expression already parsed |
| JmesParser.Parser.ParseKvp | alphaflow/backend/alphaflow-jmes/src/parser.rs:269-283 | a key-value pair starts with an identifier or quoted identifier equal to the key, followed by a colon |
| JmesParser.Parser.ParseFilter | alphaflow/backend/alphaflow-jmes/src/parser.rs:306-327 | a filter ends at `]` and gives a projection over the given left side whose right side is a condition returning the element |
| JmesParser.Parser.ParseFlatten | alphaflow/backend/alphaflow-jmes/src/parser.rs:330-338 | a flatten gives a projection whose left side flattens the given node |
| JmesParser.Parser.ParseComparator | alphaflow/backend/alphaflow-jmes/src/parser.rs:340-344 | a comparison carries the given comparator and left side |
| JmesParser.Parser.ParseDot | alphaflow/backend/alphaflow-jmes/src/parser.rs:346-354 | the right side of a dot consumes at least one token |
| JmesParser.Parser.ProjectionRhs | alphaflow/backend/alphaflow-jmes/src/parser.rs:356-367 | a token that is not `.`, `[` or `[?` ends the projection with the identity when it binds below the projection stop, and is an error otherwise |
| JmesParser.Parser.ParseWildcardIndex | alphaflow/backend/alphaflow-jmes/src/parser.rs:369-378 | `[*]` needs the closing bracket and gives a projection over the given left side |
| JmesParser.Parser.ParseWildcardValues | alphaflow/backend/alphaflow-jmes/src/parser.rs:380-388 | `.*` gives a projection over the values of the given left side |
| JmesParser.Parser.ScanIndex | alphaflow/backend/alphaflow-jmes/src/parser.rs:391-418 | the bracket scan ends at `]` with at most two colons; the parts it fills are `SliceParts` of exactly the tokens it consumed (each number into the part its preceding colons select), the offset is that of the closing `]`, a step comes only after two colons, a lone number is read as the index, and a third colon is rejected |
| JmesParser.Parser.ParseIndex | alphaflow/backend/alphaflow-jmes/src/parser.rs:391-448 | `[n]` gives the index n; one or two colons give a projection whose offset, and whose slice's offset, is the offset after `]` (taken before the right side is parsed), whose slice start and stop are the first two parts scanned and whose step is the third part, 1 when absent; three colons are an error |
| JmesParser.Parser.ParseMultiList | alphaflow/backend/alphaflow-jmes/src/parser.rs:451-464 | a bracket list ends at `]`; a single string literal gives a field with that literal's offset and text, and any other list gives a multi-list of the parsed elements at the offset where the list began |
| JmesParser.Parser.ParseList | alphaflow/backend/alphaflow-jmes/src/parser.rs:467-483 | a list ends at the closing token and a comma just before it is rejected |
| JmesParser.ParseExpression | alphaflow/backend/alphaflow-jmes/src/parser.rs:17-25 | a tokenizer error is returned as is, and a parse succeeds only on tokens |
| JmesInterpreter.OrTruthy | alphaflow/backend/alphaflow-jmes/src/interpreter.rs:242-249 | an or-expression is truthy exactly when either side is |
| JmesInterpreter.Interpret | alphaflow/backend/alphaflow-jmes/src/interpreter.rs:212-368 | a successful `!` gives a boolean, a comparison a boolean or null, a projection, flatten, values, slice or multi-list an array or null, a multi-hash an object or null, and `&` an expression reference |
| JmesInterpreter.Values | alphaflow/backend/alphaflow-jmes/src/interpreter.rs:278-286 | one value per key, and every key's value appears |
| JmesInterpreter.Projected | alphaflow/backend/alphaflow-jmes/src/interpreter.rs:287-301 | a projection succeeds only when the right side succeeds on every remaining element |
| JmesInterpreter.Flattened | alphaflow/backend/alphaflow-jmes/src/interpreter.rs:302-316 | every non-array element, and every element of an array element, appears in the result |
| JmesInterpreter.Listed | alphaflow/backend/alphaflow-jmes/src/interpreter.rs:317-327 | one result per remaining sub-expression |
| JmesInterpreter.Hashed | alphaflow/backend/alphaflow-jmes/src/interpreter.rs:328-339 | the keys already collected stay, and success means every remaining pair's value succeeded |
| JmesInterpreter.AndTruthy | alphaflow/backend/alphaflow-jmes/src/interpreter.rs:250-257 | `a && b` is truthy exactly when both are |
| JmesInterpreter.DoubleNegation | alphaflow/backend/alphaflow-jmes/src/interpreter.rs:258-261 | `!!a` is the truthiness of a as a boolean |
| JmesInterpreter.SubexprAssociative | alphaflow/backend/alphaflow-jmes/src/interpreter.rs:222-225 | `(a.b).c` and `a.(b.c)` give the same result |
| JmesInterpreter.IdentityNeutral | alphaflow/backend/alphaflow-jmes/src/interpreter.rs:222-229 | `@` on either side of a sub-expression changes nothing |
| JmesInterpreter.FilterSelects | alphaflow/backend/alphaflow-jmes/src/interpreter.rs:262-269 | a filter projection keeps exactly the elements whose condition is truthy, in order |
| JmesInterpreter.ProjectedNoNull | alphaflow/backend/alphaflow-jmes/src/interpreter.rs:287-301 | a projection never keeps a null and keeps at most one result per element |
| JmesInterpreter.FlattenedAppend | alphaflow/backend/alphaflow-jmes/src/interpreter.rs:302-316 | flattening distributes over concatenation |
| JmesInterpreter.FlattenedFlat | alphaflow/backend/alphaflow-jmes/src/interpreter.rs:302-316 | flattening an array with no nested arrays changes nothing |
| JmesInterpreter.ListedEach | alphaflow/backend/alphaflow-jmes/src/interpreter.rs:317-327 | a multi-list has one result per element, each the element's own result |
| JmesInterpreter.HashedKeys | alphaflow/backend/alphaflow-jmes/src/interpreter.rs:328-339 | a multi-hash has exactly the keys of its pairs |
| JmesInterpreter.HashedLast | alphaflow/backend/alphaflow-jmes/src/interpreter.rs:328-339 | for a repeated key the last pair's value wins |
| JmesInterpreter.HashedKeeps | alphaflow/backend/alphaflow-jmes/src/interpreter.rs:328-339 | a key no later pair mentions keeps its earlier value |
| JmesInterpreter.ZeroStepFails | alphaflow/backend/alphaflow-jmes/src/interpreter.rs:357-361 | a slice with step 0 is an invalid-slice error at its offset |
| JmesInterpreter.UnknownFunctionFails | alphaflow/backend/alphaflow-jmes/src/interpreter.rs:340-353 | calling a function the runtime does not know is an unknown-function error at the call's offset |
| JmesInterpreter.MultiSelectNull | alphaflow/backend/alphaflow-jmes/src/interpreter.rs:317-330 | a multi-list or multi-hash over null is null |
| JmesInterpreter.TruthinessExamples | alphaflow/backend/alphaflow-jmes/src/interpreter.rs:250-261 | 0 is truthy, the empty array is not, and `&&` returns its falsy right side |
| JmesExpression.ApplyTemplate | alphaflow/backend/alphaflow-jmes/src/expression.rs:9-41 | a string without `(` or `@` and any number, boolean or null are returned unchanged |
| JmesExpression.TemplateFields | alphaflow/backend/alphaflow-jmes/src/expression.rs:22-29 | the fields done so far cover exactly the listed keys |
| JmesExpression.TemplateItems | alphaflow/backend/alphaflow-jmes/src/expression.rs:31-37 | the items done so far are one per remaining element |
| JmesExpression.ObjectShape | alphaflow/backend/alphaflow-jmes/src/expression.rs:22-29 | a mapped object keeps exactly the template's keys |
| JmesExpression.FieldsApplied | alphaflow/backend/alphaflow-jmes/src/expression.rs:22-29 | an object template succeeds exactly when every field does, and each field holds that field's own result |
| JmesExpression.FieldsFrom | alphaflow/backend/alphaflow-jmes/src/expression.rs:22-29 | the field loop succeeds exactly when every remaining field does, each key holding its field's result |
| JmesExpression.FieldsSucceed | alphaflow/backend/alphaflow-jmes/src/expression.rs:22-29 | the field loop succeeds exactly when every remaining field does |
| JmesExpression.FieldValues | alphaflow/backend/alphaflow-jmes/src/expression.rs:22-29 | each key of a successful field loop holds its field's result |
| JmesExpression.ItemsApplied | alphaflow/backend/alphaflow-jmes/src/expression.rs:31-37 | an array template succeeds exactly when every element does, and keeps length and order |
| JmesExpression.ItemsFrom | alphaflow/backend/alphaflow-jmes/src/expression.rs:31-37 | the element loop succeeds exactly when every remaining element does, each in place |
| JmesExpression.ItemsSucceed | alphaflow/backend/alphaflow-jmes/src/expression.rs:31-37 | the element loop succeeds exactly when every remaining element does |
| JmesExpression.ItemValues | alphaflow/backend/alphaflow-jmes/src/expression.rs:31-37 | each item of a successful element loop is that element's result |
| JmesExpression.FirstFailureAborts | alphaflow/backend/alphaflow-jmes/src/expression.rs:24-26 | the first failing field in key order is the error returned |
| JmesExpression.FailureAt | alphaflow/backend/alphaflow-jmes/src/expression.rs:24-26 | the field loop returns the error of the first failing key |
| JmesExpression.StaticUnchanged | alphaflow/backend/alphaflow-jmes/src/expression.rs:9-41 | a template with no dynamic string anywhere maps to itself |
| JmesExpression.SimpleMapping | alphaflow/backend/alphaflow-jmes/src/expression.rs:43-49 | the template {"a": 12, "b": "@.c"} keeps 12 and replaces "@.c" by its search result |
| JmesExpression.ConstantAndExpression | alphaflow/backend/alphaflow-jmes/src/expression.rs:43-49 | a constant field is kept while an expression field takes its search result |
| JmesExpression.ObjectFromFields | alphaflow/backend/alphaflow-jmes/src/expression.rs:22-29 | when every field maps, the result is the object of the mapped fields |
| JmesExpression.MappingContext | alphaflow/backend/alphaflow-jmes/src/expression.rs:55-61 | without non-empty object parameters the context is the input; otherwise it holds the input's keys and the parameters' keys, a parameter winning over an input field |
| JmesExpression.ApplyMappingTemplate | alphaflow/backend/alphaflow-jmes/src/expression.rs:50-65 | the result is the template applied to the merged context |
| JmesExpression.SetKeysStep | alphaflow/backend/alphaflow-jmes/src/expression.rs:58-60 | each loop step sets one parameter key |
| JmesExpression.SetKeysContext | alphaflow/backend/alphaflow-jmes/src/expression.rs:55-61 | setting every parameter key in turn builds the merged context |
| JmesExpression.SetKeysFields | alphaflow/backend/alphaflow-jmes/src/expression.rs:58-60 | after setting keys, the object has the old keys and the set keys, set keys holding the parameter values |
| JmesRuntime.Validate | alphaflow/backend/alphaflow-jmes/src/jmes_runtime.rs:19-50 | arguments pass exactly when arity and every argument's type fit the signature; too few arguments is reported as such; a type error names the first ill-typed argument and its expected type |
| JmesRuntime.FirstBadArgument | alphaflow/backend/alphaflow-jmes/src/jmes_runtime.rs:19-50 | no error exactly when every remaining argument fits; otherwise the first one that does not |
| JmesRuntime.Uppercase | alphaflow/backend/alphaflow-jmes/src/jmes_runtime.rs:20-23 | uppercasing keeps the length, leaves no ASCII lower-case letter, keeps every other character and shifts each lower-case letter by 32 |
| JmesRuntime.UppercaseIdempotent | alphaflow/backend/alphaflow-jmes/src/jmes_runtime.rs:20-23 | uppercasing twice is uppercasing once |
| JmesRuntime.Texts | alphaflow/backend/alphaflow-jmes/src/jmes_runtime.rs:32-40 | one text per split piece |
| JmesRuntime.SplitValue | alphaflow/backend/alphaflow-jmes/src/jmes_runtime.rs:32-40 | split yields an array of strings that joined by the delimiter gives the input back |
| JmesRuntime.ArgTextJson | alphaflow/backend/alphaflow-jmes/src/jmes_runtime.rs:54-66 | a non-string argument is written as its JSON text |
| JmesRuntime.DecimalNoQuote | alphaflow/backend/alphaflow-jmes/src/jmes_runtime.rs:59-65 | a number's JSON text does not start with a quote, so no quote is stripped |
| JmesRuntime.NatToDecimalDigits | alphaflow/backend/alphaflow-jmes/src/jmes_runtime.rs:59-65 | a natural number's decimal text starts with a digit |
| JmesRuntime.ConcatAppends | alphaflow/backend/alphaflow-jmes/src/jmes_runtime.rs:51-70 | concat of one more argument appends that argument's text |
| JmesRuntime.ConcatNull | alphaflow/backend/alphaflow-jmes/src/jmes_runtime.rs:54-66 | concat of a string and null appends "null" |
| JmesRuntime.ConcatText | alphaflow/backend/alphaflow-jmes/src/jmes_runtime.rs:51-69 | no arguments give the empty text, and string arguments give their plain concatenation |
| JmesRuntime.CustomCall | alphaflow/backend/alphaflow-jmes/src/jmes_runtime.rs:11-73 | the custom names shadow only `uppercase`, `split` and `concat`; each succeeds exactly when its signature fits (one string; two strings; at least one argument) and then answers `Uppercase`, `SplitValue` or `ConcatText`, and each failure carries the call's offset; every other name goes to the builtins |
| JmesRuntime.CustomFunctions | alphaflow/backend/alphaflow-jmes/src/jmes_runtime.rs:11-73 | uppercase, split and concat answer as defined for well-typed arguments; concat with no arguments and uppercase of a non-string are argument errors |
| JmesRuntime.NestedUppercase | alphaflow/backend/alphaflow-jmes/src/jmes_runtime.rs:16-25 | uppercase of an uppercased string gives the same string |
| JmesRuntime.CompileAndSearch | alphaflow/backend/alphaflow-jmes/src/jmes_runtime.rs:119-128 | a compile error is returned as such; otherwise the result is the interpreter's value as JSON or its error as an execution error; serialization never fails |
| Strings.TrimEmptyIffBlank | alphaflow/backend/alphaflow-workflow/src/json_expression.rs:55 | trimming gives the empty string exactly when the string is all whitespace |
| Strings.TrimTwice | alphaflow/backend/alphaflow-workflow/src/json_expression.rs:55-57 | trimming is idempotent |
| Strings.JoinSplit | alphaflow/backend/alphaflow-workflow/src/transformation.rs:37 | splitting on a delimiter and joining with it gives the string back |
| Strings.SortedKeys | alphaflow/backend/alphaflow-jmes/src/expression.rs:24-27 | a map's keys in key order: each key exactly once |
| Strings.SortedKeysAscending | alphaflow/backend/alphaflow-jmes/src/expression.rs:24-27 | the keys are listed in ascending order |
| Strings.ParseUsize | alphaflow/backend/alphaflow-workflow/src/json_expression.rs:143 | a parsed index never exceeds the largest usize |
| Strings.ParseUsizePrinted | alphaflow/backend/alphaflow-workflow/src/json_expression.rs:143 | the decimal text of any usize parses back to it |
| Strings.ParseUsizeRejects | alphaflow/backend/alphaflow-workflow/src/json_expression.rs:143 | a key holding a non-digit character (other than a leading plus) is not an index |

## Left out

- I/O, concurrency and logging: async execution, `tokio::time::timeout`, watch-channel notifications and oneshot result channels. The dispatcher records the signals it would send (`signals`) and the results it would deliver (`results`), and takes a node's outcome (completed, failed, timed out) as an input. `tracing`/`log` calls are dropped.
- Node execution and the JMESPath query used by the workflow are function parameters. The network node handlers (HTTP, OpenAI) are not part of this model; only their parameter validators are.
- `task_runner.rs` and the handler crate are not part of this model: they are an async polling loop and trait forwarding.
- Floating point: JSON and JMESPath numbers are integers. The OpenAI `temperature` is carried as an opaque value. The `gt` custom function, which parses and compares `f64`, is left to the builtin-function parameter.
- The JMESPath lexer, the token binding-power table and the builtin function table are parameters (`tokenize`, `lbp`, `Runtime`). The engine's `ast.rs`, `variable.rs`, `lexer.rs` and function-signature code are not part of this model. Their types are defined here as the parser and interpreter use them. Value comparison, truthiness, indexing and slicing follow the JMESPath Specification.
- JMESPath parse errors carry the message and the offending token rather than the formatted "-- found {:?}" text. An expression reference serialises to a fixed placeholder.
- `DirectedGraph`:
  - node ids are stable, so petgraph's swap-remove renumbering is not modelled; behaviour by name is unaffected;
  - the order in which neighbours are listed is not modelled, and results are stated as sets or multisets;
  - `find_strongly_connected_components` and `find_shortest_path` (library algorithms) are not part of this model.
- `HashMap` iteration order: results depending on it (start nodes, roots, leaves, the topological order, `to_workflow`, registry listing, store clearing) are stated as sets, permutations or order-independent properties. Where serde_json iterates a map, keys are taken in ascending order.
- Workflow.Workflow.Run: the unbounded breadth-first loop runs under a fuel bound. An outcome of `None` means the fuel ran out, which the source can reach only by looping forever.
- JmesExpression.ApplyMappingTemplate: requires the merged input to be an object or null when there are parameters to merge, because `ctx[key] = ...` panics on any other value.
- AstContainer.ContainerSpec and the field builders require the field types to be free of the `HashMap<'a, V>` shape on which `parse_ty` panics by indexing past the last type argument (FieldSafe, InputSafe).
- Dropping an `ASTResult` that was never checked only prints a warning (there is no panic); when that warning is due is modelled as `WarnsOnDrop` (see `Ctxt.OnePush`), but the printing itself and the `thread::panicking()` guard in front of it are not, since the model has no unwinding and no standard error stream.
- EventAttrs.EventError: its requires excludes an event without an error type, on which `event_error` panics by unwrapping `None` (event_attrs.rs:79-82); the model gives the error type only where the source returns one.
- `default_pb_type` takes the identifier as the type name. Its error-and-panic branch is not modelled, because an identifier always parses as a type. `get_with_tokens` is never called and is not part of this model.
- Spans, token re-spanning (`spanned_tokens`, `respan_token_stream`, `respan_token_tree`) and `parse_lit_str` are not part of this model. Whether a literal parses as a type, a path expression or a plain path is the `Parsers` parameter.
- `Debug` renderings used inside error messages (literals, paths, fields) are approximated (`Syn.DebugLit`, `Syn.DebugStr`, `EventAttrs.PathDebug`, `AstContainer.DebugField`).
- `debug_assert!` checks (the increasing-id check in `TaskQueue::push`, the not-done check in `TaskDispatcher::add_task`) are not modelled; the release-build behaviour is.
- TaskStore.TaskStore.SetTaskState stands for `mut_task`, whose only use in the core is setting a task's state.
- JmesParser.Parser.Parse: states that success consumed every token, not the tree it builds.
- JmesParser.Parser.Expr: states consumption and the binding-power stop, not the tree.
- JmesParser.Parser.Nud: states the `{}`, quoted-function-name and identifier cases; the other cases only consume a token.
- JmesParser.Parser.Led: states the function-call and filter cases; the other operators only consume a token.
- JmesParser.Parser.ParseDot: states only that a token is consumed.
- JmesParser.Parser.ParseList: states the closing token and the trailing-comma rule, not the elements.
- Orchestrator.Orchestrator.RunAll: states that the queue ends empty, not which tasks left the store.
- JmesAst.Reverse: states only that the length is kept; its meaning is fixed by `SliceReversed` and `ReverseSnoc`.
- Persistence (`alphaflow-sqlite`, `data_service`), FFI, global state, constant tables, code generation and templating, and the commented-out executor are not part of this model.
