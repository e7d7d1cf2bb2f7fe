# A verified model of the HTTP client's request compiler and delivery

The program is a Go HTTP client whose I/O is thin and whose core is a request
compiler with several exits. A fluent `RequestBuilder` collects tagged headers,
query parameters, cookies, path parameters and one body. A plan is compiled from
the client's and the request's layers. `Prepare` shows the plan under disclosure
tags and a body budget, and `Send` and `SendStream` deliver it through a retry
loop that owns request bodies and responses. This project models that core in
Dafny and proves that the exits agree with one another and that nothing that has
to be closed is left open.

The modules follow the program.

* **Builder and metadata.** `Headers` (field names under case folding),
  `OrderedHeaders` (the ordered object), `Body`, `Builder` (the builder as a state
  machine and its invariants), `BuilderEffects` (what each call leaves under each
  name, tags included), `BuilderObject` (the builder and the client as mutable
  objects), `Slices` and `Snapshot` (in-place compaction of shared arrays,
  and snapshots that stay as they were).
* **Plan compiler.** `HeaderPlan` and `DeliveredHeaders` (compile-time merge against
  delivery-time overlay), `OrderedPlan` and `OrderedCompile` (ordered intent),
  `Escaping` and `QueryPlan` (percent escaping as in section 2.1 of RFC 3986, and
  the query of plan and URL), `Cookies`, `PathTemplate` and `PathOrder` (path
  parameters), `UrlTrace` (the lexical URL split), `Masking` (URL text with gaps of
  unknown content, and what a parser can tell about its structure), `Percent`,
  `Legibility` and `QueryNames` (the same for percent escapes, for refusals, and for
  the names of a query), `TargetTrace`, `TraceGuard` and `TargetExact` (the request
  target, the placeholder counts of its trace, and what private parameters can change
  about the URL), `Compiled` (the whole plan, part by part).
* **Prepare.** `Checkpoints` (computations that poll a context), `Prepared` (the
  specification of what Prepare shows), `Projection`, `BodyProjection` and
  `PreparationCall` (the projectors as loops), `Disclosed` (what a caller reads off
  the result, and when there is none), `FormBudget` (the overflow-safe form
  length), `Disclosure` (what the projection of a plan depends on), `Noninterference`
  (from two requests to two preparations), `TemplateGuard` (a guard that a caller can
  check on the template), `Leaks` (requests outside the guard), `Agreement`
  (Prepare against builder and delivery).
* **Delivery.** `Materialize` (from body plan to request body), `Retry` (the retry
  loop), `Ownership` (middleware and the request body), `Sending`, `Buffering`,
  `Lines`.
* **Errors.** `ErrorTree` (the URL-diagnostic sanitizer).
* `Base` and `Sorting` hold shared vocabulary and the stable sort.

A Go string is a sequence of bytes, and a byte is a character below 256. The
transport, the context, the iteration order of every Go map, readers, codecs and
the multipart writer are arbitrary parameters, so each result holds for all of
them. `int` and `int64` are unbounded except where the program's arithmetic could
overflow: the form length and the number of retry iterations are computed in 64
bits.

Some properties one would expect of the program are false of it. Each is stated as
an equivalence with the condition under which it holds:

* An ordered request entry without values removes the client's values of that name
  from the delivered header, while the plan still shows them
  (`DeliveredHeaders.PlanEqualsDelivery`, `DeliveredHeaders.EmptyOrderedEntryShadows`).
* A malformed query in an absolute path is passed through by delivery and missing
  from the plan (`QueryPlan.PlanEqualsUrl`, `QueryPlan.MalformedQueryDiffers`).
* Sequential path substitution depends on the map's iteration order for exactly the
  templates with an opening brace that other placeholders can complete
  (`PathOrder.OrderIndependentExactly`, `PathOrder.NestedIsNotFlat`).
* Prepare can show a private path parameter. Its trace counts placeholders in the
  raw template, cut at URL delimiters, while resolution replaces one parameter after
  another and escaping keeps ':', '@', '&' and '='. A name with '?' or '#', a
  placeholder that another value completes, a colon in a first segment, an empty
  segment and an ampersand in a query value all get past it, and a value after an
  unfinished percent escape, as in "/%{a}", decides whether the URL is accepted
  (`Leaks`). Over all private values the URL is split and accepted or refused alike if
  and only if the target is settled (`TargetExact.ParseExactly`), its path is the same
  if and only if no private parameter is in it (`TargetExact.PathExactly`), and over all
  values without ampersands Prepare shows the same query names if and only if the query
  is settled (`TargetExact.NamesExactly`). Under these conditions the trace's counts are
  enough (`TraceGuard.CountedPathIsFree`), and private content changes nothing that
  Prepare returns, errors included (`Noninterference.NonInterference`);
  `TemplateGuard.CheckedIsGuarded` gives the conditions from the template alone.
* Whether a typed body has a Content-Type of the request's own is seen even when the
  header is private: an empty one is refused. Preparations agree if and only if both
  requests have one or neither has (`Noninterference.TypesExactly`,
  `Leaks.EmptyTypeIsSeen`).
* Sanitizing an error whose URL has an opaque rest, such as "http:user:pw@host", keeps
  that rest (`ErrorTree.SanitizedIsSafe`, `ErrorTree.OpaqueUrlIsShown`).
* Sanitizing a multi-error that has an `Is` method and holds a URL loses what only
  that method matched (`ErrorTree.MatchingLostExactly`).
* `range retry.Max + 1` wraps for the largest `Max`, so that no attempt is made
  (`Retry.Terminal`).

## Model

| member | source | states |
|---|---|---|
| `Builder.StepKeepsInv` | request.go:322-430 | every header, ordered-header and body call keeps the coupling of list and ordered object and the ownership of a generated Content-Type |
| `Builder.ReachableFromNew` | body.go:136-297 | in every state a new builder can reach, ordered keys are unique up to case, each non-pseudo name has the same values in both containers, and a generated media type is the one Content-Type value |
| `Builder.ChooseKeepsInv` | body.go:289-297 | selecting any body from any coupled state removes the previous generated Content-Type and installs its own, in both containers |
| `Builder.TakeOrderedKeepsInv` | request.go:339-357 | replacing the ordered object re-derives the header list so that both agree, whatever the argument's duplicate keys |
| `BuilderEffects.SetHeaderEffect` | request.go:359-386 | after a set, the name has exactly the given value with its disclosure tag in the list and its text in the ordered object, every other name keeps values and tags, and the body gives up its Content-Type exactly when that was named |
| `BuilderEffects.AddHeaderEffect` | request.go:388-411 | after an addition the name has its old values and then the new one, with its tag; nothing else changes |
| `BuilderEffects.SetHeadersEffect` | request.go:322-337 | after a batch the last entry of a name in the iteration order decides, its values are private, and names outside the batch are untouched |
| `BuilderEffects.SetOrderedEffect` | request.go:339-357 | every name has the values of all its entries in order, private in the list; pseudo names are in the object only; without an object both are empty |
| `BuilderEffects.DelHeaderEffect` | request.go:413-430 | the given names are gone from both containers, and every other name keeps values and tags |
| `BuilderEffects.SelectBodyEffect` | body.go:169-297 | each body setter leaves its content with its tag (typed values private) and its own private Content-Type; without one only a generated Content-Type is removed |
| `BuilderEffects.FormFieldsEffect` | body.go:100-152 | form fields follow those of an active form in order with their tags, or start a form with its Content-Type |
| `BuilderEffects.DelFormFieldEffect` | body.go:154-167 | the fields of the given names are gone, and every other name keeps its values in order with their tags |
| `BuilderEffects.ReachableSpelled` | request_metadata.go:117-136 | in every reachable state the header list holds canonically spelled names |
| `Headers.CanonicalSpelling` | request_metadata.go:225-230 | a token is spelled with capitals at word starts and nowhere else, and any other name stays |
| `BuilderObject.RequestBuilder.Header` | request.go:359-375 | the mutating call stores the text as a private value, in exactly its state-machine step, and keeps the invariant |
| `BuilderObject.RequestBuilder.HeaderValue` | request.go:377-386 | the same with the tag of the given value |
| `BuilderObject.RequestBuilder.AddHeader` | request.go:388-402 | the same for appending a private value |
| `BuilderObject.RequestBuilder.AddHeaderValue` | request.go:396-411 | the same for appending a tagged value |
| `BuilderObject.RequestBuilder.DelHeader` | request.go:413-430 | the same for deletion, including disowning a deleted generated Content-Type |
| `BuilderObject.RequestBuilder.SetHeaders` | request.go:322-337 | the same for a batch, for every iteration order of the argument map |
| `BuilderObject.RequestBuilder.SetOrdered` | request.go:339-357 | the same for the ordered object, which is cloned |
| `BuilderObject.RequestBuilder.Choose` | body.go:169-297 | the same for every body setter |
| `BuilderObject.RequestBuilder.FormFields` | body.go:100-152 | the same for form fields, which activate a form body first |
| `BuilderObject.RequestBuilder.DelFormField` | body.go:154-167 | the same for deleting form fields |
| `BuilderObject.KeepOthers` | request_metadata.go:138-156 | the nested deletion loop is the stable filter by folded name |
| `BuilderObject.Client.SetDefaultHeaders` | client.go:187-195 | the new defaults are the batch, ordered defaults are gone, and list and object stay coupled |
| `BuilderObject.Client.SetDefaultOrderedHeaders` | client.go:197-216 | list and object are both derived from the clone and agree |
| `BuilderObject.Client.SetDefaultHeader` | client.go:218-227 | one name is replaced in both containers and they stay coupled |
| `OrderedHeaders.SetValuesMeaning` | ordered_headers.go:100-108 | setting a name replaces its values at its place or appends it, keeps names unique up to case and touches no other name |
| `OrderedHeaders.AddValueMeaning` | ordered_headers.go:110-126 | adding appends one value to one name and keeps the key order |
| `OrderedHeaders.DeleteNameMeaning` | ordered_headers.go:128-135 | deleting removes one name, whatever its case, and nothing else |
| `OrderedHeaders.CloneOrdered` | ordered_headers.go:14-29 | cloning makes names unique up to case without losing or reordering a value, and is exact on unique objects |
| `HeaderPlan.MergeOccurrences` | request_plan.go:394-410 | the map-and-compact loop is the stable filter of the client list followed by the request list |
| `HeaderPlan.MergedValues` | request_plan.go:394-410 | for every name the plan's values are the request's if it has any, else the client's |
| `HeaderPlan.PlannedMeaning` | request_plan.go:100-105 | and in the compiled plan they keep their disclosure tags, except that credentials are private |
| `HeaderPlan.SealCredentials` | request_plan.go:101-105 | the loop that makes credentials private changes nothing else |
| `HeaderPlan.AddLayerMeaning` | ordered_headers.go:50-77 | for every field name and iteration order a layer adds its ordered values if it orders the name, else its plain values |
| `HeaderPlan.OverlayMeaning` | ordered_headers.go:79-98 | overlaying replaces exactly the names the layer holds |
| `HeaderPlan.OverlayHeaderValues` | ordered_headers.go:79-98 | the loops over Go maps compute that overlay |
| `DeliveredHeaders.Request.ApplyPlan` | request.go:505-547 | the mutating function builds exactly the specified header |
| `DeliveredHeaders.DeliveredMeaning` | request.go:505-547 | the value list of every field name on the delivered request, for all iteration orders |
| `DeliveredHeaders.PlanEqualsDelivery` | request_plan.go:394-418 | plan and delivery agree on a name if and only if no empty ordered request entry shadows client values of it; Authorization, Cookie and a generated Content-Type excepted |
| `DeliveredHeaders.EmptyOrderedEntryShadows` | request.go:505-547 | a reachable builder and a client for which the plan shows "X: 1" and delivery sends no "X", in every iteration order |
| `DeliveredHeaders.AuthorizationPrecedence` | request.go:505-547 | client header < client auth < request header < request auth |
| `DeliveredHeaders.GeneratedTypeIsSent` | body.go:289-297 | for every reachable builder a generated non-multipart media type is the one Content-Type that delivery sends, and the one Prepare shows |
| `OrderedPlan.MergeOrdered` | ordered_headers.go:137-154 | client entries the request does not name stay first and in order, the request's follow in theirs, and names stay unique |
| `OrderedPlan.UnnamedMeaning` | ordered_headers.go:137-154 | exactly the client entries whose names the request lacks survive the merge |
| `OrderedPlan.SyncOrdered` | ordered_headers.go:156-171 | the loop that edits the object it iterates over equals an entry-by-entry rewrite |
| `OrderedPlan.SyncedAgrees` | ordered_headers.go:156-171 | after a sync every non-pseudo entry carries the semantic values, and no entry with values was lost |
| `OrderedCompile.Compile` | request_plan.go:420-444 | for every iteration order, exactly the listed names survive and the request's entries keep their order at the end |
| `OrderedCompile.CompileOrdered` | request_plan.go:100-108 | the plan's ordered intent holds, for every field name it lists, exactly the plan's header values |
| `OrderedCompile.DeliverOrdered` | request.go:510-546 | the delivered metadata carries the values on the wire for exactly the placed names, a generated Content-Type included |
| `QueryPlan.CompiledLayers` | request_plan.go:337-388 | compiled names are sorted, and under each name come private base values, private path values, then the builder's with their tags |
| `QueryPlan.AddQueryValues` | request.go:267-279 | the merge loop over a Go map appends to every key, for every iteration order, and an empty addition leaves the raw query alone |
| `QueryPlan.ResolvedLayers` | request.go:209-279 | the parsed query of the final URL is base, path, builder for every key |
| `QueryPlan.ExitsAgree` | request_plan.go:337-374 | exactly when the plan and the URL fail together |
| `QueryPlan.PlanEqualsUrl` | request_plan.go:337-388 | for every key the plan's values are the URL's parsed values in order, if and only if the path query parses or holds nothing under the key |
| `QueryPlan.MalformedQueryDiffers` | request_plan.go:337-374 | for every pair an absolute target with a stray percent sign after it compiles to a plan without the pair that its URL still has |
| `Escaping.UnescapeEscape` | request.go:267-279 | percent escaping round-trips on every byte string |
| `Escaping.EscapeSingle` | request.go:267-279 | unreserved bytes stay, a space becomes a plus sign, and any other byte its upper-case percent triple |
| `Escaping.ParseJoin` | request.go:267-279 | parsing an encoded list of pairs gives the list back |
| `Escaping.QueryEncode` | request.go:267-279 | for every key, encoding values and parsing them returns the key's values in order |
| `Cookies.Merge` | request_plan.go:492-510 | the two-pass map algorithm equals the stable selection of occurrences that no later layer overrides |
| `Cookies.MergeAssociates` | request_plan.go:492-510 | merging in stages from either side equals merging at once |
| `Cookies.WinningLayer` | request_plan.go:492-510 | each name keeps all repeats of its last layer, in order |
| `Cookies.MergedNames` | request_plan.go:492-510 | no name is lost or invented |
| `PathTemplate.ReplaceIsSubst` | request_metadata.go:77-83 | on a template where the name completes no foreign brace, ReplaceAll is substitution of its holes |
| `PathTemplate.PathUnescapeEscape` | request_metadata.go:77-83 | unescaping gives the substituted parameter back |
| `PathTemplate.OrderIndependent` | request_metadata.go:77-83 | on flat templates sequential replacement in any order equals one simultaneous substitution |
| `PathOrder.OrderMatters` | request_metadata.go:77-83 | every template that is not flat has parameters for which two iteration orders resolve differently |
| `PathOrder.OrderIndependentExactly` | request_metadata.go:77-83 | the iteration order is irrelevant if and only if the template is flat |
| `PathOrder.NestedIsNotFlat` | request_metadata.go:77-83 | a template for which the order matters |
| `UrlTrace.SplitConserves` | request_plan.go:222-265 | for every template and delimiter-free placeholder the count in the template is the sum over the six parts |
| `UrlTrace.QuerySplitsExactly` | request_plan.go:267-280 | the count in a query is exactly that in names plus that in values |
| `UrlTrace.CountQueryNames` | request_plan.go:267-280 | the loop over the pieces counts exactly the name positions |
| `Masking.SettleSound` | request_plan.go:222-265 | a text whose shape is settled has that scheme, authority and path whatever its gaps hold |
| `Masking.SettleExact` | request_plan.go:222-265 | a text that is not settled has two fillings that parse to different shapes |
| `TargetTrace.ResolvedIsFilled` | request_metadata.go:77-83 | sequential replacement in a flat template, in any order, fills the gaps of one masked text that the public data determine |
| `TraceGuard.TemplateSplit` | request_plan.go:222-265 | the lexical split of a template with delimiter-free names takes its placeholders apart unharmed, part by part |
| `TraceGuard.EligibleSettles` | request_preparation.go:447-464 | the eligibility check settles scheme and authority of every anchored template, whatever the values |
| `TraceGuard.CountedPathIsFree` | request_plan.go:183-217 | when the trace counts no private placeholder in scheme, authority and path, no private value is in the path of the resolved URL |
| `TraceGuard.CountedQueryIsFree` | request_plan.go:183-217 | when no private placeholder is in the template's query, no private value is in the resolved query |
| `TargetExact.ShapeExactly` | request_plan.go:80-92 | private values leave scheme, authority and kind of the URL text alone in all runs if and only if its structure is settled; whether the text is accepted is `TargetExact.ParseExactly` |
| `TargetExact.ParseExactly` | request.go:209-213 | and the URL is split alike and accepted or refused alike in all runs if and only if moreover no private parameter stands inside a percent escape of an otherwise acceptable userinfo, path or fragment |
| `TargetExact.PathExactly` | request_preparation.go:524-549 | and its path if and only if no private parameter is in it |
| `TargetExact.NamesExactly` | request_preparation.go:551-593 | over all private values without ampersands, a query parses alike and shows the same names with the same multiplicities if and only if it can never parse or no private parameter is in a name or inside an escape |
| `Compiled.CompileMeaning` | request_plan.go:80-132 | exactly which requests have a plan, and all of it: own or joined URL, a trace with its counts for each parameter, query layers and merged headers with their tags, the request's own Content-Type |
| `Percent.UnescapeWell` | request.go:236-260 | a text can be unescaped exactly when each percent sign starts two hexadecimal digits |
| `Legibility.ParseSound` | request.go:209-213 | whether a settled text is accepted is the same for every escaped value in its gaps |
| `Legibility.ParseExact` | request.go:209-213 | a text of settled structure that is not settled is accepted with one value and refused with another |
| `QueryNames.QueryOk` | request.go:216-224 | a query parses exactly when it holds no semicolon and every percent sign in it starts two hexadecimal digits |
| `QueryNames.QuerySettledSound` | request_plan.go:337-345 | a settled query parses alike and has the same names for all values without ampersands |
| `QueryNames.QuerySettledExact` | request_plan.go:337-345 | a query that is not settled has two such values that show |
| `Slices.Slice.Append` | request_metadata.go:85-87 | append extends the contents, in place or in a new array |
| `Slices.Slice.Delete` | request_metadata.go:89-104 | compaction that overwrites the array being read is the stable filter |
| `Slices.Slice.DeleteAndClear` | body.go:154-167 | the same, and the vacated tail is cleared |
| `Slices.Slice.Clone` | request_plan.go:390-392 | the copy shares no storage |
| `Snapshot.KeptIsWithout` | request_metadata.go:138-156 | in-place header deletion is the filter the builder is specified by |
| `Snapshot.Store.Snapshot` | request_metadata.go:206-223 | a snapshot has the same values and entirely fresh storage |
| `Snapshot.StepEffect` | request_metadata.go:85-200 | each call adds to or deletes from its own list under its own names, tags included, and changes no other list |
| `Snapshot.StepHeaderEffect` | request_metadata.go:106-156 | the same for headers, with names compared up to case |
| `Snapshot.Store.Apply` | request_metadata.go:45-186 | each call does its specified step and never reaches storage it did not own |
| `Snapshot.SnapshotThen` | request_plan.go:172-181 | after any later calls, resets of a list included, the builder has moved on and the snapshot is unchanged |
| `Checkpoints.RunSequence` | request_preparation.go:400-405 | running two polling computations in a row reports the first failing poll of either |
| `FormBudget.EncodeIsSortedJoin` | body.go:326-331 | encoding the grouped form equals joining its pairs stably sorted by name |
| `FormBudget.AddLength` | request_preparation.go:825-831 | the 64-bit addition reports excess exactly and never overflows |
| `FormBudget.LowerBoundHolds` | request_preparation.go:779-823 | no running total exceeds the length of the encoding |
| `Prepared.FastPathRefinesEncode` | request_preparation.go:779-823 | for every all-public form and budget the early exit reports too-large exactly when the encoding exceeds the budget, and otherwise the retained bytes are the encoding |
| `Projection.ProjectTarget` | request_preparation.go:524-549 | the loop shows the path exactly when template, base path and every substituted parameter are public, polling as specified |
| `Projection.ProjectQuery` | request_preparation.go:551-593 | grouping, sorting and filtering give the specified rows, or the context's first error; what the rows show is `Disclosed.QueryIsShown` |
| `Disclosed.QueryIsShown` | request_preparation.go:551-593 | one row for exactly each name, sorted, with one entry per value in order, its content exactly when it is public |
| `Projection.ProjectHeaders` | request_preparation.go:595-675 | the same for headers, whose rows are those of `Disclosed.HeadersAreShown` |
| `Disclosed.HeadersAreShown` | request_preparation.go:595-675 | one row for exactly each name up to case, spelled as first written: public content is shown and private is not, credentials and cookies never are, and a Content-Type only as the generated media type in first place |
| `Projection.ProjectOrdered` | request_preparation.go:677-716 | the same for ordered entries, whose rows are those of `Disclosed.OrderedIsShown` |
| `Disclosed.OrderedIsShown` | request_preparation.go:677-716 | every position of every entry shows what the returned header row of that name shows there, and nothing beyond it |
| `Projection.ProjectCookies` | request_preparation.go:725-742 | the same for cookies, whose rows are those of `Disclosed.CookiesAreShown` |
| `Disclosed.CookiesAreShown` | request_preparation.go:725-742 | cookies with valid names in order, each with its content exactly when it is public |
| `BodyProjection.ProjectForm` | request_preparation.go:779-823 | the three form loops compute the specified outcome in 64-bit arithmetic |
| `BodyProjection.ProjectManifest` | request_preparation.go:886-941 | fields sorted and redacted, file fields in order, and the first invalid part reported |
| `BodyProjection.ProjectBody` | request_preparation.go:744-823 | every kind of body is shown or withheld as specified |
| `Disclosed.BodyIsShown` | request_preparation.go:744-941 | exactly when the body fails and how, and otherwise its kind, media type, public bytes or the encoding of an all-public form, and the multipart manifest |
| `PreparationCall.Project` | request_preparation.go:482-522 | for every plan, budget and context the whole call returns the specified preparation or the first error, and a preparation discloses what `Disclosed.ProjectionDiscloses` says |
| `Disclosed.ProjectionDiscloses` | request_preparation.go:482-522 | the projection fails exactly for a faulty body, and otherwise every part of the preparation shows its part of the plan, no less and no more |
| `Disclosed.PolledOften` | request_preparation.go:551-742 | at most 64 query, header or cookie occurrences are processed for each poll of the context |
| `Projection.CheckEligible` | request_preparation.go:447-480 | the polling loop reports the first private parameter in scheme, authority or a query name, then the first auth method that is not a sound built-in |
| `PreparationCall.Prepare` | request_preparation.go:363-388 | the builder's retained error, first check, budget, compilation, body shape, eligibility and projection in order, with the first error reported, for every context; a success discloses the plan, and any error but the context's is the one of `Disclosed.CallDiscloses` |
| `Disclosed.CallDiscloses` | request_preparation.go:363-480 | Prepare refuses a request exactly for one of these reasons, the first one first: retained error, negative budget, failed compilation, body shape, a private parameter in scheme, authority or query name, an unsound or custom auth method, a faulty body |
| `PreparationCall.CheckShape` | request_preparation.go:407-445 | a typed body needs a Content-Type of the request's own, a reader and a multipart form must be there, and every other body passes |
| `Disclosure.PlansAlike` | request_preparation.go:482-941 | two plans with the same public part that agree on the shown target are prepared alike |
| `Noninterference.NonInterference` | request_preparation.go:363-941 | two guarded requests that differ only in private content, from template and parameters to headers and body, are prepared alike or fail alike, for every resolver, budget, context and iteration order; a typed body has its own Content-Type in both or in neither, and multipart bodies have the same fault or none |
| `Noninterference.NonInterferenceOfSuccess` | request_preparation.go:363-941 | the same without comparing Content-Types or the validation of multipart bodies, whenever both preparations succeed |
| `Noninterference.TypesExactly` | request_preparation.go:407-445 | such requests that compile agree for all budgets and contexts if and only if a typed body has its own Content-Type in both or in neither |
| `TemplateGuard.CheckedIsGuarded` | request_plan.go:183-217 | a guard on template and public values alone: flat, plain names, anchored, no placeholder inside an escape, and nothing private counted in scheme, authority and query names |
| `TemplateGuard.CountedNamesAreFree` | request_plan.go:267-280 | when the trace counts no private placeholder in query names and public values bring no delimiter, every private value of the query stands behind an equals sign |
| `Leaks.DelimiterInName` | request_plan.go:200-216 | for every parameter name with '?' or '#', as in "/{a?b}", the trace counts nothing and two private values give two shown paths |
| `Leaks.NestedName` | request_metadata.go:77-83 | the same for a placeholder that a public value completes, as in "/{{a}}" |
| `Leaks.LeakIsPrepared` | request_preparation.go:524-549 | in both cases the prepared targets differ |
| `Leaks.ColonInValue` | request_plan.go:222-231 | a private value in the first segment, a letter and a colon, becomes the scheme although the request is eligible |
| `Leaks.ColonIsPrepared` | request_preparation.go:524-549 | and the prepared targets of two such values differ |
| `Leaks.EmptySegment` | request_plan.go:232-247 | an empty private value turns a segment into the authority although the request is eligible |
| `Leaks.SegmentIsPrepared` | request_preparation.go:524-549 | and its prepared target differs from that of another value |
| `Leaks.AmpersandInValue` | request_plan.go:267-280 | a private value in a query value becomes a query name although the trace counts none there |
| `Leaks.AmpersandIsPrepared` | request_preparation.go:551-593 | and the prepared query rows of two such values differ |
| `Leaks.EscapeInValue` | request.go:209-213 | in "/%{a}" every value of two hexadecimal digits is accepted and "zz" is refused, although both requests are eligible |
| `Leaks.EscapeIsPrepared` | request_preparation.go:376-380 | the refused request compiles under no resolver |
| `Leaks.EmptyTypeIsSeen` | request_preparation.go:407-419 | a typed body with an empty private Content-Type is refused for it and one with any other value is not |
| `Agreement.PreparedBytesAreSent` | body.go:299-351 | bytes that Prepare retains are the bytes delivery offers |
| `Agreement.ShownTypeIsSent` | request_preparation.go:864-884 | for every reachable builder and client, the Content-Type row Prepare shows for a generated non-multipart type is the one value delivery sends |
| `Agreement.SetHeaderIsDisclosed` | request.go:359-386 | a header set on the builder is shown by Prepare with its content exactly when it was tagged public, whatever the client's defaults |
| `Agreement.AddHeaderIsDisclosed` | request.go:388-411 | the same for each value of a header built up by additions |
| `Agreement.ShownTypeIsInstalled` | request_preparation.go:864-884 | the media type Prepare names is the Content-Type that the body choice installed |
| `Materialize.BuiltBodyIsFaithful` | body.go:372-437 | every body the library builds replays what it sent first and announces its length, given a source whose Read agrees with ReadAt |
| `Materialize.BuildMeaning` | body.go:299-437 | exactly which bodies are refused and with which error, and for any other its bytes, announced length and type, and whether it can be sent again |
| `Materialize.Deliver` | delivery.go:222-291 | every attempt is offered exactly the body's bytes (the codec's, the raw content, all form fields sorted and escaped, the reader's, or the multipart writer's), at most Max + 1 attempts are made, a body that is sent once gets one, and length, type and errors are those of `Materialize.BuildMeaning` |
| `Retry.Terminal` | delivery.go:220-291 | attempts, wire events and result of a call are the specified ones for every transport and keep the promise: an attempt is followed by another exactly when more are allowed, a retry is wanted, the response was released cleanly, the wait completed and the body can be offered again, and the last one returns its response with all failures or the error of the step that failed; no attempt is made exactly for the largest Max |
| `Retry.PromiseDecides` | delivery.go:220-291 | nothing but this number of attempts and this result keeps the promise |
| `Retry.AttemptsUnique` | delivery.go:225-291 | the number of attempts is determined by the transport's replies |
| `Retry.RunSettled` | delivery.go:225-291 | in every run no ownership rule is broken, and at its end exactly the live response that is returned is open and undrained |
| `Retry.LiveResponsesAppear` | delivery.go:231-239 | every error-free response of an attempt is accounted for in the run |
| `Retry.ResponsesConserved` | delivery.go:225-291 | in every run each error-free response is received once; the one returned live is neither drained nor closed, and any other is drained as far as 64 KiB and closed exactly once |
| `Retry.Conserved` | delivery.go:268-272 | each response is received once, drained by at most 64 KiB, and closed exactly once unless it is still held |
| `Retry.AtMostOneOpen` | delivery.go:225-291 | at every moment of a run at most one response body is open |
| `Retry.RunReplays` | delivery.go:432-449 | a one-shot body gets one attempt, and with a faithful GetBody every attempt is offered the first attempt's bytes |
| `Retry.RunOffers` | delivery.go:226-231 | each attempt is one request: the first offers the body, and a later one exactly what GetBody gave for it |
| `Buffering.DrainAndClose` | delivery.go:315-323 | the same on a reader, for every chunking |
| `Buffering.BufferBody` | response.go:58-97 | for every chunking success means the whole stream, which fits; overflow returns nothing partial, at most limit + 1 bytes are read, and the body is closed once |
| `Lines.Iterate` | response.go:372-391 | the iterator yields the ScanLines lines, or a prefix that ends where the consumer stopped |
| `Lines.ScanUnlines` | response.go:372-391 | newline-terminated plain lines come back unchanged |
| `Lines.UnlinesScan` | response.go:372-391 | a body without carriage returns is rebuilt from its lines, its last line terminated |
| `Lines.ScanMixed` | response.go:372-391 | the only bytes dropped are line ends: a newline, one carriage return before it, and one at the end of an unterminated last line |
| `Sending.Send` | delivery.go:343-383 | success exactly for an error-free handed-over response whose stream ends cleanly within the limit, with the whole stream as result; nothing is left open on any path and the context is released once |
| `Sending.FinishSend` | delivery.go:359-382 | whatever the middleware chain hands over, its body is closed exactly once: by the error branch, or by the buffering |
| `Sending.FinishStream` | delivery.go:406-429 | whatever the chain hands over, an error closes its body and releases the context before it is returned, and a success leaves it unread and open |
| `Sending.SendStream` | delivery.go:389-430 | on any error nothing is open and the context is released; on success the caller holds the one open body with the cancel obligation |
| `Sending.StreamResponse.CloseRepeatedly` | stream_response.go:94-104 | however often Close is called, the context is cancelled and then the body closed, once |
| `Ownership.Compose` | delivery.go:296-301 | handlers nest as client list, then request list |
| `Ownership.ExecCounted` | delivery.go:200-218 | whatever middleware does with req.Body, the materialized body is closed at most once |
| `Ownership.ExecMeaning` | delivery.go:200-312 | transport calls and Close calls of a run are added up in order, the body assigned last stays, and the materialized body is released exactly when some Close reaches it |
| `Ownership.Do` | delivery.go:303-312 | without a transport call the body is closed exactly once, after whatever middleware left in the request was closed; with one, `do` adds no Close call |
| `Ownership.AttemptsNeedWholeChain` | delivery.go:296-303 | a run reaches the transport only through every handler of the chain |
| `ErrorTree.ChangedIffUrl` | request.go:46-105 | the original object is returned exactly when no url.Error is reachable |
| `ErrorTree.SanitizedIsSafe` | request.go:46-149 | no url.Error reachable from the result, and no text it prints, shows credentials, query or fragment, if and only if no URL of the tree has an opaque rest |
| `ErrorTree.FindingsKept` | request.go:46-149 | the result has the same url.Errors, net.OpErrors and leaves in the same order: a parsed URL keeps scheme, host and path and loses user, query and fragment, an opaque one keeps scheme and rest, and any other is redacted |
| `ErrorTree.OpaqueUrlIsShown` | request.go:135-149 | the URL "http:user:pw@host" is printed unchanged |
| `ErrorTree.ClassifiedAlike` | request.go:46-128 | for every tree and sentinel the result matches what the original matches with the Is methods of rewritten multi-errors set aside, and has a net.OpError exactly when the original has |
| `ErrorTree.MatchingUnchanged` | request.go:46-128 | matching is unchanged in both directions when no multi-error that holds a URL defines Is |
| `ErrorTree.MatchingLostExactly` | request.go:71-84 | a match is lost exactly when only such an Is method made it |
| `ErrorTree.MultiWithIsLosesMatch` | request.go:71-84 | a tree for which the guard is needed |
| `ErrorTree.TimeoutsKept` | request.go:86-128 | every wrapper that reports a timeout is kept, except one that an earlier pass made |

## Left out

- Network, TLS, HTTP/2, HTTP/3, fingerprints, proxies, redirects and net/http's cookie jar: library behaviour behind the transport parameter.
- URL parsing: scheme, userinfo, authority, path, query and fragment are cut out of the resolved text as url.Parse does, and a missing scheme, control bytes, other bytes than a userinfo may hold, and malformed percent escapes are refused. Which schemes and hosts are refused beyond that is an arbitrary function of scheme, authority and the kind of the URL; lower-casing, host decoding, path escaping and the join with a base path are arbitrary functions of those parts.
- The second parse of the printed URL and the method check in http.NewRequestWithContext: the one is taken to succeed, the other depends on the method alone.
- The JSON, XML and YAML codecs, struct-to-query conversion and multipart framing: oracles that produce bytes or fail.
- Header names beyond ASCII: case folding and canonical form are modelled on bytes (section 5.1 of RFC 9110).
- The ordered object: a sequence in which setting a present key keeps its place and deletion keeps the order of the rest; its own implementation is not part of this model.
- Auth methods: one is the Authorization value it sets, as the built-in ones are; a custom method that edits other headers is not modelled.
- Backoff, jitter and Retry-After: the wait is an arbitrary completed-or-cancelled outcome. `RetryPolicy.normalize` (retry.go:75-86) makes Max non-negative, which the retry methods take as given.
- ShouldRetry is an arbitrary answer per attempt; one that edits the request or response is not modelled.
- Preview, option validation, loggers, profiles, getters and file saving: single-branch facts.
- Setters that record a preparation error (a nil multipart body, a negative SizedReader length): only their successful effect is modelled; Prepare takes a recorded error as given.
- compileCookieOccurrences: how the cookie layers are read out of Cookie headers is not modelled, only their merge; the Cookie line that AddCookie writes is given. So `Noninterference.NonInterference` takes the names of all cookies as equal, also of those in a private Cookie header, whose names Prepare shows.
- The parameter-count limit that recent Go versions apply to query parsing.
- Locks and goroutines: calls on one builder or client are sequential.
- Sending.Send: composes the retry loop with middleware that passes its result on; for any other middleware `Sending.FinishSend` gives the closes, and a response that middleware swallows is its own to close.
- Sending.SendStream: the same, with `Sending.FinishStream`.
- ErrorTree.ClassifiedAlike: covers matching of sentinels and presence of net.OpError; which timeouts are kept is `ErrorTree.TimeoutsKept`, the answer of IsTimeout is not claimed.
- Snapshot.Store.Apply: cookies are values, so the deep copy of a cookie object's own fields is not captured.
