# Verified model of the swagger hub controllers

A Dafny model of three Kubernetes controllers and of the document pipeline they form together:

1. a **SwaggerDefinition** is fetched and stored in a ConfigMap,
2. a **SwaggerSpecification** selects definitions, rewrites their OpenAPI documents (every local `$ref` is
   prefixed, every component schema renamed to `<definition>.<schema>`) and folds them into one document,
3. a **SwaggerHub** selects definitions and specifications, copies ConfigMaps of other namespaces next to itself,
   and deploys a swagger-ui that serves them under one URL each.

`dafny verify dfyconfig.toml` checks the whole project.

## Layout

| file | what it has |
|---|---|
| `Text.dfy`, `JsonPointer.dfy` | `strings.LastIndex` and `replaceLast`, the order of strings; JSON values, JSON Pointers and their evaluation (sections 3, 4 and 6 of RFC 6901) |
| `References.dfy` | references in any JSON value, and the meaning of a value: its references followed to any depth |
| `RefRewriting.dfy`, `ReferenceLimits.dfy` | rewriting one document preserves meaning; exactly which references survive it |
| `InPlaceRewriting.dfy` | the same rewriting on the heap, in place, with the panics |
| `Unification.dfy`, `UnificationProperties.dfy`, `UnificationLimits.dfy` | many documents in one: last writer wins, schemas conserved, meaning preserved, references resolve; and exactly when |
| `Objects.dfy`, `Cluster.dfy`, `Selectors.dfy`, `Selection.dfy` | the API objects, the API server as a class, label selectors, the selecting functions and the watch mappers |
| `ContainerMerge.dfy` | `MergePatchContainers` |
| `Publishing.dfy` | the loop over references that publishes, copies and mounts ConfigMaps |
| `Conditions.dfy` | status conditions |
| `DefinitionController.dfy`, `SpecificationController.dfy`, `HubController.dfy`, `HubProperties.dfy` | the three reconcilers: a step function for each, the imperative code proved equal to it, and its properties |
| `Serving.dfy` | what a deployed pod serves, created or updated: its URLs, its volume, the bytes in it |
| `Runs.dfy`, `Provenance.dfy`, `Ownership.dfy`, `Pipeline.dfy` | safety over whole runs: any interleaving of reconciles, failures, edits and deletions; and all three controllers end to end |
| `Locality.dfy`, `Rounds.dfy` | a step that changes nothing stays so when other things change; a round of all resources is a fixpoint of the whole cluster |

A reconciler is written twice. The *step* is a function from one state of the cluster (`Snapshot`) to the next; the
*code* is a method on the class `ApiServer` with the loops and assignments of the original, and its contract says
that it takes that step. Go maps and listings are visited in an arbitrary order (`:|`), so a contract that names one
result proves that the order does not matter. What the environment decides (which requests fail, what a fetch
returns, how many pods are ready) is a parameter of the step. Theorems about one step, and those about runs, hold for
all its values; what a hub serves is stated for reconciles that got as far as the deployment.

Where the code does not do what it is for, the exact condition is proved:

- **References.** The code puts the prefix after the last literal slash of a local reference, but renames only
  component schemas. A reference keeps its target in every document if and only if it is no JSON Pointer, or meets
  the condition `Survives`, on its tokens and the token that gets the prefix (`KeepsTargetExactly`, percent escapes
  included). For one that some document resolves: its last token is not `$ref`, and either the prefixed
  one is the name of a component schema, or there is no literal slash and the path does not meet the schemas. So `#/components/responses/x` does not survive
  (`OtherComponentsLost`), nor does `#/components/schemas%2Fx` (`EscapedSlashLost`), but `#/components/schemas/x%2Fy`
  does (`EscapedSlashKept`).
- **Names.** The prefix is only the definition's name. No schema is lost in a merge, whatever the documents, if
  and only if no name is another one, or another one continued after a dot (`SchemasKeptExactly`): two definitions
  of one name in two namespaces collide, and so do `a` and `a.b`. The same names decide whether every path item keeps
  its meaning (`MeaningKeptExactly`).
- **Copies.** A copy is named `<configmap>-<namespace>`. Every URL leads to the bytes of its source if and only if
  sources differ in the mounted ConfigMap and in the path (`PublishedExactly`). A ConfigMap keeps what its own
  resource stored last if and only if no hub can copy onto it; otherwise a stored document is overwritten in some run
  while its resource exists (`LatestExactly`, `DisturbedExactly`). Security schemes keep their names, and paths only
  move below base paths, so they are all kept if and only if definitions agree on those they share
  (`SchemesKeptExactly`, `PathsKeptExactly`).
- **Triggers.** One hub with an invalid namespace selector, or whose namespaces cannot be listed, makes the hub
  mapper return nothing for all hubs (`HubTriggerAgreesExactly`); the specification mapper only looks at its own namespace
  (`SpecificationTriggerAgreesExactly`).
- **Panics.** Rewriting panics exactly for a `$ref` that is no string, and for `components` or
  `components.schemas` that are no objects (`RewriteDocument`, `RewritableExactly`).

The fixpoint of a hub, on the other hand, needs no condition on names, and holds for every failure
(`HubIsFixpoint`): a copy sorts before every local reference it can shadow, so a loop that stops half way stops at the
same place again. With all copies apart, a round of all definitions, then all specifications, then all hubs is a fixpoint of
the whole cluster (`RoundIsFixpoint`).

The functions that a reconciler is specified by have laws of their own, which say what they do without naming them:
what a reference into the merged document finds (`DocumentParts`, `InfoRead`, `ServersRead`), under which path an item
is merged (`MovedExactly`), when a definition loads and which error it has (`LoadedExactly`, `UnusableExactly`), what a
selector selects (`PairMatches`, `ExpressionMatches`, `BothMatch`, `SelectedExactly`), when each resource is ready (the
two `ReadyExactly` and `HubReadyExactly`), and which URLs are deployed (`DeployedPod`).

The model follows the code where the documentation differs: `README.md` line 155 says the first server of the first
definition is the default, but the code takes servers from the specification only; and `generateOpenAPI` does not
copy the `info.version` or the server variables of the specification.

## Model

| member | source | states |
|---|---|---|
| `Text.LastIndex` | internal/controllers/swaggerspecification_controller.go:351-357 | The last occurrence: there is one at the result, and none after it; -1 when there is none |
| `Text.LessExactly` | internal/controllers/swaggerhub_controller.go:746-751 | The first byte that differs decides the order of two strings; the end of a string comes before any byte |
| `JsonPointer.ThreeTokens` | internal/controllers/swaggerspecification_controller.go:226-238 | A reference `#/components/schemas/<segment>` evaluates to the key that its segment decodes to, percent and tilde escapes included |
| `JsonPointer.PointerRoundTrip` | internal/controllers/swaggerspecification_controller.go:338-357 | Every place in a document has a reference, escaped where it must be, and reading it gives back the tokens it was made of |
| `References.RefsAreStringsExactly` | internal/controllers/swaggerspecification_controller.go:327-331 | The type assertion of the walk holds everywhere exactly when no place that a reference can name has a `$ref` that is no string |
| `References.ExpandMapped` | internal/controllers/swaggerspecification_controller.go:321-336 | Any rewriting of references that carries each target along leaves the meaning of every value alone, at every depth |
| `References.AllRefsMapped` | internal/controllers/swaggerspecification_controller.go:321-336 | A property of reference strings holds throughout a rewritten value exactly when its pre-image held throughout the original |
| `References.NoRefsNoChange` | internal/controllers/swaggerspecification_controller.go:321-336 | A value without references is left as it is |
| `RefRewriting.RenameKeys` | internal/controllers/swaggerspecification_controller.go:230-234 | Every schema is found under its qualified name, with its value; there is no other key and none is lost |
| `RefRewriting.RewrittenSchemas` | internal/controllers/swaggerspecification_controller.go:226-238 | The schemas of a rewritten document are the rewritten schemas, one for one, under qualified names |
| `RefRewriting.RestIsPrefixed` | internal/controllers/swaggerspecification_controller.go:226-238 | Outside the schemas a rewritten document has the members it had, with their references prefixed and nothing else changed |
| `RefRewriting.RewritableExactly` | internal/controllers/swaggerspecification_controller.go:226-238 | Rewriting does not panic exactly when no place has a `$ref` that is no string, and `components` and its `schemas` are objects where they are there |
| `RefRewriting.PrefixedSchemaRef` | internal/controllers/swaggerspecification_controller.go:338-357 | The rewritten reference is the reference to the qualified schema |
| `RefRewriting.PrefixRefRoundTrip` | internal/controllers/swaggerspecification_controller.go:338-357 | The prefix can be read off again: each reference is rewritten once, after its last slash |
| `RefRewriting.PrefixedRoundTrip` | internal/controllers/swaggerspecification_controller.go:321-336 | The walk loses nothing: stripping the prefixes gives back the whole value |
| `RefRewriting.PrefixingPreservesMeaning` | internal/controllers/swaggerspecification_controller.go:226-238 | A prefixed value means in any document that holds the renamed schemas what it meant in its own, to every depth |
| `RefRewriting.RewritingPreservesMeaning` | internal/controllers/swaggerspecification_controller.go:226-238 | In particular in its own rewritten document |
| `RefRewriting.PrefixingPreservesResolution` | internal/controllers/swaggerspecification_controller.go:226-238 | A rewritten value has a dangling reference exactly when the original has one |
| `ReferenceLimits.KeepsTargetExactly` | internal/controllers/swaggerspecification_controller.go:226-238 | For every local reference, escaped or not: it keeps its target in every document if and only if it is no JSON Pointer or meets the condition on its tokens |
| `ReferenceLimits.PrefixedTokens` | internal/controllers/swaggerspecification_controller.go:338-357 | The prefix goes to exactly one token of the decoded reference, the one after its last literal slash |
| `ReferenceLimits.OtherComponentsLost` | internal/controllers/swaggerspecification_controller.go:226-238 | References to other kinds of components do not survive |
| `ReferenceLimits.EscapedSlashLost` | internal/controllers/swaggerspecification_controller.go:338-357 | A schema reference whose last slash is escaped is lost |
| `ReferenceLimits.EscapedSlashKept` | internal/controllers/swaggerspecification_controller.go:338-357 | A reference below a schema survives when the slashes after the name are escaped |
| `InPlaceRewriting.PrefixRefs` | internal/controllers/swaggerspecification_controller.go:321-336 | In place on an unshared tree of maps: panics exactly for a `$ref` that is no string; otherwise the heap then holds the rewritten value |
| `InPlaceRewriting.PrefixSlice` | internal/controllers/swaggerspecification_controller.go:323-326 | The same for the elements of a slice |
| `InPlaceRewriting.PrefixMap` | internal/controllers/swaggerspecification_controller.go:327-334 | The same for the entries of a map, overwritten in any order while they are walked |
| `InPlaceRewriting.RewriteDocument` | internal/controllers/swaggerspecification_controller.go:226-238 | Prefixing and renaming on the heap: panics exactly when the document is not rewritable; otherwise the root holds the rewritten document, and is an unshared tree again |
| `InPlaceRewriting.RenamedEntries` | internal/controllers/swaggerspecification_controller.go:230-234 | The loop over the schemas fills the new map with the qualified keys, in any order |
| `InPlaceRewriting.Decode` | internal/controllers/swaggerspecification_controller.go:206 | Every JSON value has an unshared tree of new maps that holds it |
| `InPlaceRewriting.Encode` | internal/controllers/swaggerspecification_controller.go:240 | Reading the maps back gives the value they hold |
| `Unification.MovedPaths` | internal/controllers/swaggerspecification_controller.go:302-309 | The paths moved below a base path, each with its item; distinct paths stay distinct |
| `Unification.MovedExactly` | internal/controllers/swaggerspecification_controller.go:303-308 | For the base path "/" each key is the path itself, for any other one it is the base path followed by the path; there are no other keys |
| `Unification.LastWriterWins` | internal/controllers/swaggerspecification_controller.go:276-318 | A merged schema, security scheme or path is there exactly when some definition wrote it, with the value of the last one that did |
| `Unification.DocumentParts` | internal/controllers/swaggerspecification_controller.go:312-318 | Read back from the document: its paths, schemas and security schemes are the merged ones, and there is nothing else in it but the head |
| `Unification.InfoRead` | internal/controllers/swaggerspecification_controller.go:154-159 | The version and the texts of `info`, found by their references, are "3.0.1" and those of the specification |
| `Unification.ContactRead` | internal/controllers/swaggerspecification_controller.go:160-164 | So are those of its contact |
| `Unification.LicenseRead` | internal/controllers/swaggerspecification_controller.go:165-169 | So are those of its license |
| `Unification.ServersRead` | internal/controllers/swaggerspecification_controller.go:174-181 | Each server is found at its own index, with its url and description, and no further one |
| `Unification.PartsRead` | internal/controllers/swaggerspecification_controller.go:291-302 | The paths and security schemes taken from a document are what references to those places denote, extensions apart |
| `UnificationProperties.SeparateExactly` | internal/controllers/swaggerspecification_controller.go:232 | Two definitions can write one key exactly when their names are not separate |
| `UnificationProperties.SchemasKeptExactly` | internal/controllers/swaggerspecification_controller.go:286-289 | For all documents, and also for all whose schemas are objects, no schema is lost or overwritten if and only if the names are separate |
| `UnificationLimits.SchemesKeptExactly` | internal/controllers/swaggerspecification_controller.go:291-293 | Every security scheme of every definition is in the document if and only if definitions that share a name have the same scheme there |
| `UnificationLimits.PathsKeptExactly` | internal/controllers/swaggerspecification_controller.go:302-309 | Every path item of every definition is among the paths of the document, below its base path, if and only if definitions that share a path there have the same item |
| `UnificationLimits.MeaningKeptExactly` | internal/controllers/swaggerspecification_controller.go:226-318 | For all documents with references to component schemas only, every path item of the merged document keeps its meaning if and only if the names of the definitions are separate |
| `UnificationProperties.SchemasConserved` | internal/controllers/swaggerspecification_controller.go:286-289 | The merged document then has as many schemas as its sources together |
| `UnificationProperties.ContributedPaths` | internal/controllers/swaggerspecification_controller.go:296-309 | A definition contributes exactly its own path items, tagged and rewritten: under the path itself for the base path "/", else under the base path followed by the path |
| `UnificationProperties.UnifiedPathsExactly` | internal/controllers/swaggerspecification_controller.go:296-312 | The paths of the document are exactly those of its definitions, below their base paths |
| `UnificationProperties.UnifiedPathsAreRead` | internal/controllers/swaggerspecification_controller.go:302-312 | With base paths that are empty or start with a slash none of them is taken for an extension |
| `UnificationProperties.MergingPreservesMeaning` | internal/controllers/swaggerspecification_controller.go:276-318 | Every path item read from the merged document means there, to every depth, what it meant in the document of the last definition that has this path, tags apart |
| `UnificationProperties.MergedRefsResolve` | internal/controllers/swaggerspecification_controller.go:276-318 | When all references of all sources resolve, so do all references of the merged document |
| `UnificationProperties.MergedTags` | internal/controllers/swaggerspecification_controller.go:296-300 | Every operation read from the paths of the merged document has one tag, the name of the definition it is from |
| `UnificationProperties.TaggingExactly` | internal/controllers/swaggerspecification_controller.go:296-300 | Each of the nine operations of a path item gets the name as its only tag, and nothing else changes |
| `ContainerMerge.MergePatchContainers` | internal/merge/container.go:27-79 | The three loops compute the merge, or the error of the first merge that fails |
| `ContainerMerge.IndexByName` | internal/merge/container.go:30-33 | Each name is mapped to its last patch |
| `ContainerMerge.LastNamedExactly` | internal/merge/container.go:30-33 | That is the one behind which there is none of the name |
| `ContainerMerge.PatchBase` | internal/merge/container.go:36-68 | Only the first base container of a name is patched; the names left over are those not in the base |
| `ContainerMerge.PatchedExactly` | internal/merge/container.go:36-68 | The first base container of a patched name is merged with the last patch of that name; any other one stays as it is |
| `ContainerMerge.MergeExactly` | internal/merge/container.go:27-79 | It fails exactly when a merge it needs fails; otherwise base order, first occurrences merged with last patches, then one entry for each patch absent from the base |
| `ContainerMerge.MergeNames` | internal/merge/container.go:27-79 | The result has the names of base and patches, and no other |
| `ContainerMerge.AddedLength` | internal/merge/container.go:72-76 | One entry is added for each patch, repetitions included, that names none of the base |
| `ContainerMerge.AddedExactly` | internal/merge/container.go:72-76 | Each such patch stands behind as many as come before it, with the content of the last patch of its name |
| `ContainerMerge.SingleBaseStaysFirst` | internal/merge/container.go:27-79 | A single base container stays first and the only one of its name |
| `Selectors.NilAndEmpty` | internal/controllers/swaggerhub_controller.go:712 | A nil selector selects nothing, an empty one everything |
| `Selectors.PairMatches` | internal/controllers/swaggerhub_controller.go:712 | A label pair selects exactly the objects that have the label with that value |
| `Selectors.ExpressionMatches` | internal/controllers/swaggerhub_controller.go:712 | `In` selects what one of its pairs selects, `NotIn` all that `In` does not, `Exists` what some pair of the key selects, `DoesNotExist` all else |
| `Selectors.BothMatch` | internal/controllers/swaggerhub_controller.go:712 | The pairs and expressions of two selectors together select what both select, and are valid when both are |
| `Selectors.ExpressionIsValid` | internal/controllers/swaggerhub_controller.go:712-715 | An expression is valid with values for `In` and `NotIn`, and without for `Exists` and `DoesNotExist` |
| `Selectors.NamesFirst` | internal/controllers/swaggerhub_controller.go:746-751 | Names decide the order of two keys, namespaces only when the names are equal |
| `Selectors.CanonicalUnique` | internal/controllers/swaggerhub_controller.go:746-751 | A set of objects has one list sorted by name and namespace |
| `Selectors.KeyLessTotal` | internal/controllers/swaggerhub_controller.go:746-751 | The comparison of keys is irreflexive and total |
| `Selectors.KeyLessTransitive` | internal/controllers/swaggerhub_controller.go:746-751 | The comparison of keys is transitive |
| `Selection.SortKeys` | internal/controllers/swaggerhub_controller.go:746-751 | Sorting gives that list, whatever the order of the items |
| `Selection.Extend` | internal/controllers/swaggerhub_controller.go:710-751 | The selection is the canonical list of the selected objects, whatever the order of namespaces and items; or an error, exactly for an invalid selector or when one of the listings it needs fails |
| `Selection.SelectedExactly` | internal/controllers/swaggerhub_controller.go:710-751 | It succeeds exactly when the selectors are valid and the needed listings answered; it then has, in order, exactly the objects with matching labels in picked namespaces, without a namespace selector in its own one |
| `Selection.HubsForChange` | internal/controllers/swaggerhub_controller.go:101-207 | The mappers return, without repetition, the hubs whose namespace selector picks the object's namespace and whose label selector matches its labels; and none at all when the hubs are not listed, or one has an invalid namespace selector or namespaces that are not listed |
| `Selection.HubTriggerAgrees` | internal/controllers/swaggerhub_controller.go:101-207 | When the mapper gives up on no hub, a hub is among its requests exactly when its reconcile selects the changed object |
| `Selection.OneHubSilencesAll` | internal/controllers/swaggerhub_controller.go:101-127 | One hub with an invalid namespace selector, or whose namespaces are not listed, and no hub is woken at all |
| `Selection.HubTriggerAgreesExactly` | internal/controllers/swaggerhub_controller.go:101-207 | The requests are the selecting hubs if and only if the mapper gives up on none, or no hub selects the object |
| `Selection.SpecificationsForChange` | internal/controllers/swaggerspecification_controller.go:77-98 | The mapper returns the matching specifications of the definition's own namespace, and none when they are not listed |
| `Selection.SpecificationTriggerAgreesExactly` | internal/controllers/swaggerspecification_controller.go:77-98 | It agrees with the selection exactly when the namespace selector picks the definition's namespace just if that is the specification's; always without one |
| `Publishing.VisitAllIs` | internal/controllers/swaggerhub_controller.go:425-488 | A loop that does not fail adds exactly the copies, and lists URLs and mounts of one and the same subsequence of references |
| `Publishing.VisibleInOrder` | internal/controllers/swaggerhub_controller.go:425-488 | The published references are in their order those that have a ConfigMap when their turn comes, none repeated or left out |
| `Publishing.OnlyCopiesWritten` | internal/controllers/swaggerhub_controller.go:425-488 | Even a loop that fails half way leaves every ConfigMap that is no copy |
| `Publishing.CopyWriter` | internal/controllers/swaggerhub_controller.go:453-487 | Every copy has the data of a reference that is copied there |
| `Publishing.UrlIsMounted` | internal/controllers/swaggerhub_controller.go:443-505 | The file the web server looks up for a URL is the path of the projected entry |
| `Publishing.FileExactly` | internal/controllers/swaggerhub_controller.go:443-446 | That file is `/usr/share/nginx/html/definitions/<namespace>/<name>/definition.json`, whatever the host in the URL |
| `Publishing.RefsExactly` | internal/controllers/swaggerhub_controller.go:408-423 | The references are those of the definitions, then those of the specifications, in order, with their names, namespaces and ConfigMaps |
| `Publishing.PublishedExactly` | internal/controllers/swaggerhub_controller.go:425-505 | For all contents of the cluster, every URL leads to the bytes of its source if and only if the references are separated |
| `Publishing.UrlServes` | internal/controllers/swaggerhub_controller.go:425-505 | Whatever entry is found under a URL has the content of that URL's source |
| `Publishing.LoopNeeds` | internal/controllers/swaggerhub_controller.go:425-488 | The loop fails exactly when the API server answers fewer requests than its references need |
| `Publishing.CopiesCollide` | internal/controllers/swaggerhub_controller.go:458 | Two definitions of distinct keys whose copies have one name |
| `Publishing.CopyPrecedes` | internal/controllers/swaggerhub_controller.go:425-488 | In a sorted list a copy onto a local reference's ConfigMap comes before that reference |
| `Publishing.LoopIsStable` | internal/controllers/swaggerhub_controller.go:425-505 | Running the loop on its own result, with the same failures, ends or stops as before and changes no ConfigMap, URL or mount, colliding copies included |
| `Conditions.PutFinds` | api/v1beta1/types.go:21-33 | Setting a condition replaces the one of its type and leaves the others |
| `Conditions.PlainKeeps` | internal/controllers/swaggerdefinition_controller.go:109-116 | After a definition or specification reconcile types are unique, and `Ready` is of this generation and true exactly on success |
| `Conditions.HubKeeps` | internal/controllers/swaggerhub_controller.go:233-240 | The same for every end of a hub reconcile, and a ready hub is neither reconciling nor unhealthy |
| `Conditions.HubConditionsExactly` | internal/controllers/swaggerhub_controller.go:276-605 | `Ready` in full, and what `Reconciling` and `Healthy` are, after every end of a hub reconcile; conditions of other types stay |
| `Conditions.HubConditionsStable` | internal/controllers/swaggerhub_controller.go:582-604 | Reconciling again with the same outcome leaves all conditions, in their order |
| `DefinitionController.Reconcile` | internal/controllers/swaggerdefinition_controller.go:79-129 | The code takes the step of a definition |
| `DefinitionController.Store` | internal/controllers/swaggerdefinition_controller.go:204-256 | The ConfigMap is written, as desired, exactly when url, fetch and write succeed; else nothing is |
| `DefinitionController.StepWrites` | internal/controllers/swaggerdefinition_controller.go:79-129 | A step writes at most its own ConfigMap and status |
| `DefinitionController.StepStores` | internal/controllers/swaggerdefinition_controller.go:204-256 | The ConfigMaps change exactly by a successful fetch |
| `DefinitionController.StoredForDefinition` | internal/controllers/swaggerdefinition_controller.go:204-243 | With a url, a fetch and a write that succeed the ConfigMap of the definition's name has the fetched body under `definition.json` and belongs to it, whether the status is persisted or not; otherwise no ConfigMap changes |
| `DefinitionController.ReadyExactly` | internal/controllers/swaggerdefinition_controller.go:204-256 | A persisted reconcile is ready, for this generation, exactly when there is a url, the fetch succeeds and the ConfigMap is written |
| `DefinitionController.StepKeeps` | internal/controllers/swaggerdefinition_controller.go:79-129 | Nothing happens for a definition that is gone, unreadable or suspended; a status that is not persisted stays |
| `DefinitionController.DefinitionIsFixpoint` | internal/controllers/swaggerdefinition_controller.go:79-129 | Fetching the same bytes again changes nothing |
| `SpecificationController.CopyInto` | internal/controllers/swaggerspecification_controller.go:286-294 | The loops over schemas and security schemes overlay them, in any order |
| `SpecificationController.TagOperations` | internal/controllers/swaggerspecification_controller.go:296-300 | Every operation of every item gets its tag, in any order, and nothing else changes |
| `SpecificationController.AppendPaths` | internal/controllers/swaggerspecification_controller.go:302-309 | The options appended, in any order, make the paths below the base path |
| `SpecificationController.FetchDefinitions` | internal/controllers/swaggerspecification_controller.go:183-274 | One result for each definition, in order, with its own index; a panic exactly when some document cannot be rewritten |
| `SpecificationController.FetchDefinition` | internal/controllers/swaggerspecification_controller.go:186-273 | One definition read, decoded, rewritten on the heap, encoded and loaded; every error and the panic as specified |
| `SpecificationController.RewriteOnHeap` | internal/controllers/swaggerspecification_controller.go:206-240 | Decoding, in-place rewriting and encoding give the rewritten document, or the panic exactly when there is none |
| `SpecificationController.ProducedUnifies` | internal/controllers/swaggerspecification_controller.go:359-419 | What a step stores is the marshalled document unified from exactly the selected definitions that load, in their order |
| `SpecificationController.LoadedExactly` | internal/controllers/swaggerspecification_controller.go:183-274 | A definition loads as a source if and only if its own ConfigMap can be read and decodes to that document, which can be rewritten under its name, is accepted by the loader, and has that base path |
| `SpecificationController.PanickedExactly` | internal/controllers/swaggerspecification_controller.go:226-238 | It panics if and only if it decodes to a document that cannot be rewritten |
| `SpecificationController.UnusableExactly` | internal/controllers/swaggerspecification_controller.go:183-274 | Each error of a definition if and only if its case: unreadable, no ConfigMap, no document in it, no JSON, not loaded, no base path |
| `SpecificationController.GenerateNeeds` | internal/controllers/swaggerspecification_controller.go:183-238 | There is no merged document exactly when some definition decodes but cannot be rewritten |
| `SpecificationController.MergeResults` | internal/controllers/swaggerspecification_controller.go:276-318 | The results folded into the document of the loaded definitions, whose paths, schemas and security schemes are the last-writer-wins ones, and the errors into the catalog |
| `SpecificationController.MergeSource` | internal/controllers/swaggerspecification_controller.go:286-309 | One definition overlays its contribution |
| `SpecificationController.GenerateOpenAPI` | internal/controllers/swaggerspecification_controller.go:153-319 | The document and the catalog, or the panic, of all definitions |
| `SpecificationController.ErrorsAccounted` | internal/controllers/swaggerspecification_controller.go:183-310 | Entry i of the catalog names definition i; it has no error exactly when that definition loads, and else the error of its case. The document is unified from those that load, one source each, in their order, and from nothing else |
| `SpecificationController.BuildCatalog` | internal/controllers/swaggerspecification_controller.go:464-470 | The catalog lists the selected definitions in order, without errors |
| `SpecificationController.Unify` | internal/controllers/swaggerspecification_controller.go:359-419 | ConfigMaps, catalog and outcome of a reconcile, for every failure |
| `SpecificationController.Reconcile` | internal/controllers/swaggerspecification_controller.go:101-138 | The code takes the step of a specification |
| `SpecificationController.StepWrites` | internal/controllers/swaggerspecification_controller.go:101-138 | A step writes at most its own ConfigMap and status |
| `SpecificationController.StepStores` | internal/controllers/swaggerspecification_controller.go:359-419 | The ConfigMaps change exactly by a unified document that was marshalled and written |
| `SpecificationController.StoredForSpecification` | internal/controllers/swaggerspecification_controller.go:371-418 | The document unified from the definitions that load is stored, encoded, under `definition.json` in the ConfigMap of the specification's name, which belongs to it, whether the status is persisted or not; without one no ConfigMap changes |
| `SpecificationController.SelectedByExactly` | internal/controllers/swaggerspecification_controller.go:421-472 | A specification selects exactly the definitions with matching labels in the namespaces it picks |
| `SpecificationController.ReadyExactly` | internal/controllers/swaggerspecification_controller.go:101-142 | A reconcile that panics leaves everything; any other persisted one is ready exactly when the selection succeeds and the document unified from the definitions that load is encoded and written, and its catalog accounts for each selected definition |
| `SpecificationController.StepKeeps` | internal/controllers/swaggerspecification_controller.go:101-142 | Nothing happens for a specification that is gone, unreadable or suspended; a status that is not persisted stays |
| `SpecificationController.SpecificationIsFixpoint` | internal/controllers/swaggerspecification_controller.go:101-138 | A second reconcile with the same failures changes nothing: a stored document is never read as a definition's |
| `HubController.BuildRefs` | internal/controllers/swaggerhub_controller.go:408-423 | The references of definitions, then specifications, in order |
| `HubController.AppendReferences` | internal/controllers/swaggerhub_controller.go:693-705 | The catalog gets a reference to each selected resource, with the namespace of foreign ones |
| `HubController.PublishRefs` | internal/controllers/swaggerhub_controller.go:425-488 | The loop on the live cluster, with a failure at any request |
| `HubController.BuildDeployment` | internal/controllers/swaggerhub_controller.go:301-541 | The desired deployment for any user template |
| `HubController.HasOwner` | internal/controllers/swaggerhub_controller.go:251-262 | Finds an owner reference with the hub's name, uid and kind exactly when there is one |
| `HubController.OwnerExactly` | internal/controllers/swaggerhub_controller.go:251-262 | An owner is its name, uid and kind together |
| `HubController.WriteService` | internal/controllers/swaggerhub_controller.go:608-648 | Create, apply, or refuse an object of somebody else |
| `HubController.WriteDeployment` | internal/controllers/swaggerhub_controller.go:608-648 | The same for the deployment |
| `HubController.CheckHealth` | internal/controllers/swaggerhub_controller.go:582-604 | The conditions, updated one by one, and the outcome of the health check |
| `HubController.ReconcileHub` | internal/controllers/swaggerhub_controller.go:275-606 | Cluster, catalog and outcome of a reconcile, for every failure |
| `HubController.Reconcile` | internal/controllers/swaggerhub_controller.go:210-249 | The code takes the step of a hub |
| `HubProperties.HubReadyExactly` | internal/controllers/swaggerhub_controller.go:229-248 | A persisted reconcile is ready exactly when both selections and the loop succeed, containers merge, both objects are written, and the hub does not wait or its deployment was read and has a ready replica; a ready hub is then healthy exactly when it waits, and one that waits without a ready replica is unhealthy |
| `HubProperties.HubSelectionExactly` | internal/controllers/swaggerhub_controller.go:650-765 | A hub selects definitions by its definition selector and specifications by its specification selector, in the namespaces it picks |
| `HubProperties.WokenHubsSelect` | internal/controllers/swaggerhub_controller.go:101-207 | The mappers ask for exactly the hubs whose reconcile takes the changed definition or specification in |
| `HubProperties.PublishedRefsExactly` | internal/controllers/swaggerhub_controller.go:425-451 | With separated references the published ones are, in order, those whose own ConfigMap exists |
| `HubProperties.StepKeeps` | internal/controllers/swaggerhub_controller.go:210-249 | Nothing happens for a hub that is gone, unreadable or suspended; a status that is not persisted stays |
| `HubProperties.DeployedFrom` | internal/controllers/swaggerhub_controller.go:408-580 | A reconcile that gets as far as the deployment deployed URLs and mounts of the same published references, and added exactly their copies |
| `HubProperties.DeployWrites` | internal/controllers/swaggerhub_controller.go:608-648 | Both objects are then the desired ones where there were none, and else the existing ones with the desired fields applied |
| `Serving.DeployedPod` | internal/controllers/swaggerhub_controller.go:301-580 | A deployment that is created or updated, under any template, has one entry for each published reference: its name is `name:namespace`, and its URL the hub's `frontendURL`, or `http://localhost` when that is empty, and `/definitions/<namespace>/<name>/definition.json`; unless the user sets others. It mounts their ConfigMaps in order unless the user mounts another volume there |
| `Serving.DeployedServesSources` | internal/controllers/swaggerhub_controller.go:408-580 | End to end, over the deployed object: for every URL in its `API_URLS`, every projected source of its volume with the file of that URL has the content of that URL's source |
| `Serving.CoveredByUser` | internal/controllers/swaggerhub_controller.go:507-541 | In a deployment that is created, exactly the files that the user mounts something over are covered |
| `Serving.LawsAreConsistent` | internal/merge/container.go:54-58 | The laws assumed of strategic merge and server-side apply can be met all at once |
| `HubProperties.CatalogIdentifies` | internal/controllers/swaggerhub_controller.go:275-294 | The persisted catalog identifies exactly the selected definitions, then the selected specifications, in order, as far as the selections succeed |
| `HubProperties.OwnNamespaceSeparated` | internal/controllers/swaggerhub_controller.go:408-423 | Without foreign namespaces the references are separated when no definition and specification share a name |
| `HubProperties.HubIsFixpoint` | internal/controllers/swaggerhub_controller.go:275-606 | With no outside change and the same failures a second reconcile changes nothing: no copy, service, deployment, catalog entry or condition |
| `HubProperties.OnlyOwnedObjects` | internal/controllers/swaggerhub_controller.go:608-648 | A reconcile, failing or not, touches at most its own service and deployment, and those only when absent or its own |
| `HubProperties.OneUiContainer` | internal/controllers/swaggerhub_controller.go:372-541 | For any user template there is exactly one `swagger-ui` container, the first one |
| `HubProperties.UnpatchedUi` | internal/controllers/swaggerhub_controller.go:372-541 | Unless the user patches it: the configured image or else the default one, `API_URLS` when something is published, and the volume at its path |
| `HubProperties.DeploymentTakesOver` | internal/controllers/swaggerhub_controller.go:304-370 | Annotations, other labels, volumes and unread fields are those of the user's template, to which only the hub's own are added; both objects are owned by the hub |
| `HubProperties.ServiceSelectsOwnPods` | internal/controllers/swaggerhub_controller.go:352-365 | For any user templates a hub's service selects the pods of a hub exactly when that has its name |
| `HubProperties.StepCopies` | internal/controllers/swaggerhub_controller.go:425-488 | However a reconcile ends, the ConfigMaps are those its loop left |
| `Runs.RunsKeepStatusSound` | internal/controllers/swaggerhub_controller.go:229-248 | Over every run: condition types unique, `Ready` of the observed generation, that not ahead of the resource's, no ready hub reconciling or unhealthy |
| `Runs.GenerationsGoForward` | internal/controllers/swaggerdefinition_controller.go:109-116 | Over every run in which a resource is not deleted, its observed generation never goes back |
| `Provenance.LatestExactly` | internal/controllers/swaggerdefinition_controller.go:204-256 | Over every run, a ConfigMap holds what its definition or specification produced last if and only if no copy that a hub can make has its name; equally so over the runs during which the resource exists and has a document stored |
| `Provenance.DisturbedExactly` | internal/controllers/swaggerhub_controller.go:453-487 | A copy lands there exactly for a resource of the same kind, in another namespace, whose name and namespace join to the name |
| `Provenance.PublishedIsLatest` | internal/controllers/swaggerhub_controller.go:408-580 | Over every run, the deployed pod shows under the URL of a published definition or specification what that one produced last, unless a volume is mounted over that file |
| `Provenance.UnifiedFromLatest` | internal/controllers/swaggerspecification_controller.go:183-226 | Over every run, a definition takes part in a unified document with what was fetched for it last |
| `Pipeline.ServedSpecification` | internal/controllers/swaggerspecification_controller.go:153-419 | All three controllers over every run: what the pod shows under a specification's URL is the union, at its last production, of exactly the definitions it selected that loaded, with their last fetched documents; and with separate names every path item means there what it meant in its own |
| `Ownership.ObjectsBelongToOwners` | internal/controllers/swaggerhub_controller.go:251-262 | Over every run, a service or deployment changes only by somebody setting it directly, or by a reconcile of the hub that its owner references name |
| `Rounds.RoundIsFixpoint` | internal/controllers/swaggerhub_controller.go:210-249 | With copies apart, a second round of all definitions, then all specifications, then all hubs, with the same failures, changes nothing in the whole cluster |

## Left out

- Fetching: HTTP, TLS, timeouts, basic auth and secrets; a fetch is any result, success with bytes or an error.
- Strings are sequences of bytes, one `char` each; `encoding/json` escaping and UTF-8 are not modelled.
- A path that is empty even after its base path is put before it: the OpenAPI library leaves it out of the merged paths, the model keeps it.
- The OpenAPI loader is a function that may reject a rewritten document and otherwise reads it as it is; it also rejects path items and security schemes that are no objects and schemas that are strings. Inlining of path-item references, default values and fields the loader drops are not modelled.
- `BasePath()`, JSON marshalling and unmarshalling, strategic merge and server-side apply are parameters. The hub's fixpoint assumes that applying the same fields twice is applying them once and keeps the owner references it sets; what a pod serves assumes that a merge lays variables and mounts of the patch over those of the base, and that applied fields are in the object afterwards.
- The marshalling error of line 242 of the specification controller cannot occur for decoded JSON, and has no branch.
- The merged document has its `schemas`, `securitySchemes` and `paths` written out also when empty, as the `marshal` parameter receives it; what `MarshalJSON` omits is that parameter's.
- Condition transition times, resource versions, uids given by the server, API versions, controller flags, events, logs and requeue intervals.
- The syntax rules of label keys and values in selectors; an invalid selector here is one with an unknown operator, or with values where the operator forbids them or without values where it demands them.
- Copying a user's template into the deployment aliases its label maps in the original; only the resulting values are modelled.
- Reconciles are atomic: races between a read and the write that follows, stale caches, garbage collection of copies and the convergence of watches. A failing request is modelled at every point.
- A panic ends a reconcile of a specification without any write; what the controller runtime does with it is not modelled.
- Mount paths are compared as they are written; `..`, repeated slashes and `subPath` are not resolved.
- The removal of copies that are no longer referenced: the code has none.
- `internal/merge/deployment.go`, which nothing calls; `main.go`, generated code, Helm chart, CRDs and RBAC.
- Discriminator mappings: their values are reference strings outside `$ref`, which the rewriting leaves as they are, so they name schemas that have been renamed.
- Objects with repeated volume, container, variable or mount names, which the API server rejects: a rejected write is a failed one. Fields that server-side apply removes again: when nothing is published any more, `API_URLS` and the volume may stay.
- Which of several failing listings or requests it was: they end a selection, a mapper or the publishing loop alike, and only the error message would tell (`Selection.Extend`, `Selection.HubsForChange`, `HubController.PublishRefs`).
- `SpecificationController.FetchDefinitions`: error texts stand for the wrapped errors of the libraries, not for their exact wording.
