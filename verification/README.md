# Cogged: a verified model

Cogged is an authorisation layer in front of a Dgraph graph database. Clients hold nodes, each with an
owner, a share group (sgi) and six permission bits, and never talk to the database. This project models
the code that decides who may see and change which nodes, and proves that its pieces agree with one
another:

- the query compiler, from clause trees to the text of a Dgraph filter and its variable map, with a lexer,
  a parser and an evaluator for the emitted language, so that "the compiled text means what the tree says"
  is a theorem about text (`FilterCompiler`, `Dql`, `FilterLexing`, `FilterMeaning`, `FilterTheorems`);
- the read-permission clause that is joined to every query, the whole query from request to redacted
  response, exact pages and the privacy of the `p` field (`ReadFilter`, `Query`, `RequestExact`, `QueryRun`,
  `Pages`, `NonInterference`), and the text that is sent: its parameter list, its templates and the chain of
  replacements that fills them (`Declarations`, `QueryParams`, `QueryText`, `QuerySent`, `QueryTheorems`), and what
  that text and its variables say when they are read again, against the request (`QueryParts`, `Selection`,
  `QueryReadBack`);
- node tokens (AuthzData): a signed cache of owner, group and bits, believed instead of a database lookup
  (`AuthzData`, `Response`, `RootIds`, `Edges`), and what they are worth over whole runs, for the store and for
  its edges (`AuthzStore`, `TokenRuns`, `PatchRuns`, `EdgeRuns`);
- the upsert, a real in-place renaming of heap objects, and the subgraphs made with it (`Upsert`,
  `UpsertTheorems`, `Subgraph`, `CreateNodes`, `Reachability`);
- the session manager, its channel protocol and its callers (`Session`, `SessionProtocol`, `Sharing`,
  `ShareRequest`), share edges and allowlists over whole runs (`ShareRuns`), and the life of bearer tokens
  (`Bearer`, `BearerRuns`);
- the text formats all of it rests on (`Text`, `Uid`, `Regex`, `Base64Url`), and the ids of share groups, which
  pass through all of them (`ServerIds`, `ServerData`).

`dafny verify dfyconfig.toml` verifies everything.

## How it is modelled

A Go string is a sequence of characters, and where bytes matter (base64, signing) one whose characters are
below 256. Code that updates things step by step is a method with loops, proved against a function; the
session manager, the variable map, the request nodes, the edge lists and the database are objects or arrays
that are changed in place. Concurrent behaviour is a set of steps, and the theorems hold in every state of
every sequence of steps. A nil dereference or an index panic is a result of its own.

Idealisations, each visible in the statement that uses it:

- the MAC is any keyed function; over runs, what verifies under the server's key was issued under it
  (`BearerRuns.Enabled`), and what verifies under a user's key is a node token issued under it or the signed
  text of some user (`TokenRuns.Unforged`);
- the MD5 hash is any function; where needed, it separates the values, or the temporary uids, of one request
  (`FilterTheorems.DigestSeparates`, `Upsert.Separates`);
- Dgraph mints for each blank name a uid that is new (`UpsertTheorems.MintsFresh`) and that a later renaming
  leaves alone (`TokenRuns.Mints`), as all canonical uids are (`TokenRuns.CanonicalIsReal`); it evaluates the filter
  language as `Dql` does; the outcome of one comparison, of a radius test and of a similarity search, and the
  order of values, are left open and only have to be the same for the same values (`QueryRun.Dgraph`);
- the allow-lists of operators and fields and the text of the epoch (which depends on the server's time zone)
  are parameters with the properties that the deployed ones have (`FilterTheorems.EnvOk` and
  `QuerySent.EnvTidy`, proved for the deployed ones by `FilterTheorems.DeployedIsOk` and `QuerySent.DeployedIsTidy`).

## What the code does not do

Each is stated with the exact condition under which the code does keep its promise.

- A `has` leaf and another leaf on the same value share one variable, and the later write wins
  (services/db.go:388-399). The compiled filter is the clause tree if and only if no value that `has` rewrites
  is also compared by another operator (`CompileExact`), and a request's filter and root query, which share one
  variable map, mean what they say if and only if that is so of the leaves of both together
  (`RequestMeansItself`). For every clashing pair there are a clause, a node and a database on which the meaning
  is lost (`ClashLosesMeaning`), and such a pair exists on the deployed tables (`ClashingPair`).
- A share request names nodes but revokes their groups (api/user.go:33-58), so un-sharing one of two nodes of a
  group leaves a share edge to the other with the group gone (`ShareRuns.OneOfTwo`). Over every run of share
  requests, allowlists and share edges agree throughout if and only if no request un-shares some but not all of
  a user's nodes of a group (`AlwaysAgreeExactly`). No list is ever too long (`ListsAreNeverTooLong`), and a user
  who asks for all that is shared with them gets the groups back (`ListingRestores`).
- "POST nodes" with `shared` puts what the database answers through the same loop (api/user.go:97-101): it panics
  if and only if the caller is not sys and one of the nodes, not their own, was stored without a read bit
  (`PostSharedNodes`). Such a share edge comes about when its owner shares a node of that kind, as below.
- Sharing dereferences a null read bit (api/user.go:41) for exactly those nodes that ownership or the sys role
  let through, that the other user does not own and that are not readable (`ShareDiesExactlyOn`). A share
  request panics there with the share edges written and the allowlists of the users before that one updated,
  and exactly then once its users are found (`HandleShare`); so it is for every owner of a node without the read
  bit who shares it with somebody else (`OwnUnreadableNodeDies`). If the database refuses the edges, the
  allowlists are changed all the same.
- A signed text among the users of a share request that is not a user's, such as a node's token, panics
  (api/user.go:112-113, `NodeTokenIsNoUser`); nothing is written.
- A patch entry panics exactly if it repeats uid and owner of a token for them and submits no share group
  (models/node.go:312-329, `UnpackNodePanicsExactly`). That is before the permission is looked at, so a token
  without "w" will do, held by somebody who is neither the owner nor sys nor granted the group
  (`PanicsBeforePermission`). The first entry of a list that is not accepted decides; nothing is written
  (`AuthzDataUnpackNodeSlice`).
- A path of one segment panics once it is past the gate (cmd/cogged/main.go:138, `ServeHTTP`), for everybody
  with a good token and for nobody else (`OneSegmentPanics`, `GraphIsOneSegment`).
- A bearer token with a dot in any field never names anybody (`TokenRoundTrip`).
- A node object that is its own edge stub, which decoding never makes, is renamed twice, and its uid comes back
  under a name that leads to no node, unless two digests collide (`UpsertSelfStub`).
- If every new node of a subgraph has an in-link, only those below the first one can be reached from the
  parent (`CreatedSubgraphsHangTogether`).
- Presenting an expired token ends the session of its id even if a refreshed token of that id is still young
  (`NoneAcceptedUntilMintedAgain`).

## What server data always meets

Two results ask something of share groups and uids that the code does not check itself.

- The read filter mirrors the response filter, as the comment at services/db.go:565-572 says, on every node if
  and only if the caller's uid is canonical hex and every grant is in the share-group charset
  (`InQueryFilterEqualsResponseFilter`). The uids that Dgraph gives out are canonical.
- That charset admits the markers `__PAGEARGS__` and `__QVARS__`, which are replaced after the filter
  (services/db.go:872-874, `MarkerPassesAsGroup`). The text that is sent is the template with every fragment in its
  place if and only if no group in the filter has an id with one of them in it (`QueryTheorems.QueryWithOptions`).

The ids of `GenerateSgi` meet both: they are in the charset, without a comma or a dot, and from November 2004 to
May 2109 their eighth character, which comes from the clock alone, is B, C or D, while a marker that fits into
fourteen characters covers the eighth and has none of these letters (`ServerIds.ServerSgiIsHarmless`). New groups
come from there only (api/user.go:72, api/graph.go:76), and over every run in which they do, every stored group is
such an id (`ServerData.GroupsAreServerMade`). So for groups of stored nodes the text sent is the template, comma
lists and read filter lose nothing, every node can be packed into a token (`StoredGroupsAreHarmless`), and the two
read filters agree (`ReadFiltersAgree`).

## Model

| member | source | states |
|---|---|---|
| `FilterTheorems.CompiledTextParses` | services/db.go:348-404 | the text compiled from any clause tree parses back to exactly the compiler's plan, with And before Or before Geo before leaf; it fails to parse exactly when some leaf names no allowed field |
| `FilterTheorems.CompileExact` | services/db.go:381-402 | under the final variable map the parsed text is the clause tree with its own operand texts if and only if no two leaves clash on a shared variable |
| `FilterTheorems.CompilePreservesMeaning` | services/db.go:348-404 | for consistent requests the parsed text, evaluated under a map that also holds earlier and later bindings, selects exactly the nodes that the clauses select by their own fields, operators and values |
| `FilterTheorems.DeployedLeaf` | services/db.go:379-402 | on the deployed tables a leaf asks, from its text to the call: eq, gt, lt, ge and le in any case of letters compare with the value as written (none is "0", and "0" of `m` is the epoch); anything else searches for the trimmed text, by a pattern exactly from three bytes on |
| `FilterTheorems.ClashLosesMeaning` | services/db.go:388-399 | for every has/eq pair on one rewritten value there are a conjunction, a node and a database where the tree selects the node and the compiled filter does not |
| `FilterTheorems.ClashingPair` | services/db.go:388-399 | such a pair of leaves exists under the deployed operator and field tables |
| `FilterTheorems.HasTextFixed` | services/db.go:391-397 | a `has` rewrite leaves a value alone exactly when it is trimmed and at most two bytes long |
| `FilterTheorems.BindingsAreLeaves` | services/db.go:388-399 | the writes to the variable map are exactly one per leaf, in visiting order |
| `FilterTheorems.DeployedIsOk` | services/db.go:79-117 | the deployed operator and field tables consist of words of the query language, none a reserved call |
| `RequestExact.ConsistentExactly` | services/db.go:755-868 | the writes of a whole request to its variable map are free of conflicts exactly when no two of its leaves clash, in the root query, in the filter or across them |
| `RequestExact.RequestMeansItself` | services/db.go:755-868 | with the variables an accepted request sends, its filter and its root query both parse and resolve to their own plans if and only if the leaves of both together do not clash |
| `FilterMeaning.ParsePlan` | services/db.go:348-404 | a printed plan followed by anything that cannot extend it parses to its tree and leaves that rest |
| `FilterMeaning.ParsePrinted` | services/db.go:348-404 | printing and parsing a plan is the identity on plans over allowed fields |
| `FilterMeaning.BindAgrees` | services/db.go:399 | the final map agrees with every write to it if and only if no two writes conflict, so later siblings disturb earlier bindings exactly then |
| `FilterMeaning.ResolveExact` | services/db.go:399-401 | replacing variables gives the plan's own texts if and only if the map agrees with the plan's bindings |
| `FilterLexing.LexPrint` | services/db.go:348-404 | the printed text of a plan lexes to its tokens whatever follows it |
| `FilterCompiler.ConstructQueryStringAndAddVars` | services/db.go:348-404 | the recursive compiler returns the plan's text and adds exactly the plan's bindings to the shared map |
| `FilterCompiler.CompileSubclauses` | services/db.go:367-371 | each subclause in turn adds exactly its own text to the list and its own bindings to the shared map |
| `FilterCompiler.CompileLeaf` | services/db.go:379-402 | a leaf writes one variable, named by the value before the `has` rewrite, and returns the test that reads it |
| `ReadFilter.RenderReadAuthzFilter` | services/db.go:573-590 | the clause for non-admin node queries, with only grants in the share-group charset, and no clause otherwise |
| `ReadFilter.RestrictionNeverCaptured` | services/db.go:868-871 | for every user filter the final text parses to (user filter) AND (authz clause): an inner or never captures the conjunct |
| `ReadFilter.AuthzTreeMeans` | services/db.go:577-589 | the parsed authz clause holds of a node exactly when the caller owns it or it is readable in a safe granted group |
| `ReadFilter.InQueryFilterEqualsResponseFilter` | services/db.go:565-590 | the in-query test is the response test on every node if and only if the uid is canonical and every grant is in the charset |
| `ReadFilter.SanitisedIsWord` | services/db.go:577 | a sanitised uid is one word of the query language |
| `Query.QueryWithOptions` | services/db.go:755-847 | the first refusal in order, or the root, the compiled filter, the page, the selection and the variables that go into the query text |
| `Query.ChooseRoot` | services/db.go:766-847 | each of the five query shapes gets its root function and its fixed variables, with depth and top-k capped |
| `Query.RootFromIds` | services/db.go:815-847 | no root ids are refused; otherwise the sanitised non-zero uids in order, recursed to at most the maximal depth |
| `Query.ComposeFilter` | services/db.go:868-871 | the user filter, parenthesised and joined by AND to the authz clause when there is one |
| `Query.UnrestrictedExactly` | services/db.go:573-576 | the final filter is the compiled one alone exactly for other queries than node queries, without a caller, or for sys |
| `QueryReadBack.PageAsRequested` | services/db.go:520-554 | the page arguments sent, read back by their labels: the order if it names an allowed field, its direction, first and offset as given, and the sanitised cursor |
| `QueryReadBack.StartsAsRequested` | services/db.go:755-847 | what is sent, text and bound variables, reads as the start that was asked for: the nearest ten, or as many as given up to a thousand; within the radius; what the root query selects; or the sanitised uids and what hangs within the depth, twenty steps at most, along the edges of the query kind |
| `QueryReadBack.FilterAsRequested` | services/db.go:849-860 | a request with a filter is filtered by it, one without by `m` later than the epoch |
| `QueryReadBack.SelectionAsRequested` | services/db.go:482-498 | the selection sent asks of a node for owner, group, bits and exactly the allowed fields that were selected, and of a neighbour, exactly if edges were, for its owner, group and bits |
| `QueryParts.EdgeReadsBack` | services/db.go:430-443 | the four kinds of query follow the predicates e, nodes, shr and ~shr |
| `NonInterference.PrivateFieldNonInterference` | services/db.go:745-753 | for a non-admin caller, stores that differ only in `p` of nodes they do not own give the same outcome for every query |
| `NonInterference.PreparedIsBlind` | services/db.go:593-643 | a query that passes the field checks never compares or orders by `p` |
| `NonInterference.RefusedExactlyWhenMentioned` | services/db.go:593-643 | a caller is refused for `p` exactly when they are not sys and some clause at the end of some path through the filter or the root query, ignored subclauses included, or the order names it in either case |
| `NonInterference.RefusedExactly` | services/db.go:616-643 | a query is refused exactly if it names `p` (unless by sys) or `g` anywhere, asks for a vector and a radius at once, has a malformed clause, vector or radius, or nothing to start from |
| `Pages.FinalFilterMeans` | services/db.go:868-871 | the final filter holds of a node exactly when the user's clause tree selects it and the caller may read it |
| `Pages.PageIsExact` | services/db.go:520-554 | a page is exactly its slice of the readable matching nodes: the output filter removes nothing |
| `Pages.PagesAreExact` | services/db.go:520-554 | the offset pages of any size, concatenated, are the ordered list cut off after the last page, and all of it once they are enough |
| `Pages.PagedListContents` | services/db.go:755-876 | that list holds each stored node once if the request starts at it, its clauses select it and the caller may read it, and otherwise not at all |
| `QueryParams.RenderQueryVarsString` | services/db.go:445-463 | for every iteration order of the map, one string declaration per value variable, comma-separated |
| `QueryParams.RenderQueryParams` | services/db.go:474-480 | fixed declarations then value declarations, with no dangling comma when either part is empty |
| `Declarations.ReadRendered` | services/db.go:465-480 | a rendered parameter list reads back as exactly the declarations it was made from |
| `QueryParams.DeclaredAreBound` | services/db.go:445-480 | the rendered list declares exactly the bound variables, each once, for every map order |
| `QueryParams.KindsAsUsed` | services/db.go:815-847 | every parameter is declared a string but the depth of a traversal, which is an int |
| `QueryParams.ParametersWellFormed` | services/db.go:755-874 | the same for the parameter list of every accepted request |
| `QueryParams.ParametersUsed` | services/db.go:755-874 | the bound variables are exactly those fixed for the root and those that the parsed root query and the parsed final filter use |
| `QueryTheorems.ParamsThenBody` | services/db.go:782-874 | the text is an opening, the parameter list, and a body that does not depend on the order of that list |
| `QueryTheorems.EveryVariableIsUsed` | services/db.go:782-874 | every variable an accepted request binds, `$ids` and `$rdepth` included, stands as a word of its own in the query text after the parameter list |
| `QueryText.ReplaceIsSwap` | services/db.go:803-805 | replacing a marker in a text made of markers and of pieces clear of it replaces exactly the pieces that are that marker, touching markers included |
| `QueryText.ChainIsSimultaneous` | services/db.go:803-874 | chained replacements equal one simultaneous substitution, in every order and for touching markers, when no fragment holds a marker that is replaced after it |
| `QueryText.TwiceUnchanged` | services/db.go:873-874 | two replacements leave a text as it is exactly if neither marker occurs in it |
| `QuerySent.RenderQuery` | services/db.go:782-874 | on each of the five templates the calls put every fragment in its place, and the last two are also made inside the filter; what the fragments say is read back by the `QueryReadBack` lemmas |
| `QuerySent.DeployedIsTidy` | services/db.go:79-117 | the deployed tables and a lower-case hex digest put neither an underscore nor a capital into compiled text |
| `QueryTheorems.QueryWithOptions` | services/db.go:755-876 | the text sent is the template with every fragment in its place if and only if no usable group in the filter holds one of the two markers replaced after it; otherwise the first refusal |
| `QueryTheorems.AnyOrderOfRequest` | services/db.go:803-874 | for every accepted request whose filter names no group with two underscores in a row, the same calls in any other order, or some of them twice, give the same text |
| `QueryTheorems.MarkerPassesAsGroup` | services/db.go:556-558 | both markers are in the charset of share groups |
| `QueryText.MarkersDisjoint` | services/db.go:783-874 | no marker occurs inside another, so replacing one never touches another |
| `Uid.SanitiseIsCanonical` | services/db.go:406-413 | for every string the result is canonical lowercase hex of 64 bits |
| `Uid.SanitiseFixesExactlyCanonical` | services/db.go:406-413 | sanitising leaves a string alone exactly when it is canonical |
| `Uid.SanitiseIdempotent` | services/db.go:406-413 | sanitising twice is sanitising once |
| `Uid.SanitiseKeepsValue` | services/db.go:406-413 | a hex string keeps its value when it fits 64 bits and saturates when it does not |
| `Uid.OverflowBeatsGarbage` | services/db.go:411 | overflow is decided before a later bad character is seen |
| `Uid.SanitiseListOfUids` | services/db.go:415-428 | the loop keeps in order exactly the entries whose sanitised uid is not zero |
| `Uid.DropZeroExact` | services/db.go:415-428 | what is kept is the subsequence of non-zero entries, each as often as it came |
| `Uid.CanonicalIsValid` | services/db.go:970-972 | canonical uids pass the uid pattern and need no trimming |
| `Uid.ValidExactly` | services/db.go:970-972 | a text passes the uid pattern exactly if it is 0x and at least one hexadecimal digit, letters in either case |
| `Regex.EscapeAllNonAlphanumOrSpaceChars` | services/db.go:314-326 | the loop computes the escaped text |
| `Regex.RegexMeansItsText` | services/db.go:314-330 | for every string, the pattern read up to its first unescaped slash is the original text, followed by the closing slash and the case flag |
| `Regex.CreateRegexInjective` | services/db.go:328-330 | different texts give different patterns |
| `Base64Url.DecodeEncode` | security/crypto.go:21-32 | decoding an encoding returns every byte sequence |
| `Base64Url.EncodeInjective` | security/crypto.go:21-24 | different byte sequences have different encodings |
| `Base64Url.DecodeIgnoresSpareBits` | security/crypto.go:26-32 | decoding does not look at the unused bits of the last symbol, so it is not injective |
| `AuthzData.VerifyOwn` | security/auth.go:32-47 | a signed text splits into its two halves, verifies under its key and decodes to what was signed |
| `AuthzData.TextRoundTrip` | models/node.go:82-116 | for dot-free uid, owner and sgi, unpacking the packed text gives back all nine authz fields |
| `AuthzData.KindsNeverConfused` | models/node.go:82-116 | node texts and user texts never unpack as each other |
| `AuthzData.PackUnpack` | models/node.go:124-133 | a token packed for a caller is granted exactly when the caller owns the node (a missing owner is the empty uid), is sys, or has the group and every required letter stands in the permission text |
| `AuthzData.SameAuthzSameDecision` | models/node.go:124-133 | the decision depends on nothing that a token does not carry |
| `AuthzData.HasRequiredPermissions` | models/node.go:281-310 | true exactly when each required letter's bit is set, which is when each of the six letters required stands in the permission text |
| `AuthzData.GrantsSpelledOut` | models/node.go:124-133 | letter by letter: who is granted r, w, o, i, d or s is the owner, sys, or somebody with the group where that very bit is set |
| `AuthzData.NoNullsKeepsText` | models/node.go:281-310 | null bits count as false: filling them in changes no permission text |
| `AuthzData.UnpackSlice` | models/node.go:139-155 | accepts exactly a non-empty list of granted tokens, each overwritten by its uid; a refusal stops at the first bad one and leaves the rest alone |
| `AuthzData.UnpackedNodeMatchesToken` | models/node.go:157-178 | an accepted patch entry says exactly what its token says, and is granted |
| `AuthzData.UnpackNodePanicsExactly` | models/node.go:157-178 | a patch entry panics exactly when it names uid and owner of its token and no share group |
| `AuthzData.PanicsBeforePermission` | models/node.go:165-173 | so does the entry of every caller who is sent a token for a node but has no permission on it |
| `Response.PackResultNodes` | responses/cogged.go:19-35 | what is returned is made of the input nodes at increasing places, each redacted and stamped; the places are those of the nodes whose own token, unpacked for this caller, grants reading, and every returned token does |
| `Response.RedactionIsPerNode` | models/node.go:188-200 | at any depth private data is left exactly where the caller owns that very node or is sys, and nothing else changes |
| `Response.RedactionsAgree` | models/node.go:188-200 | the redaction of flat result nodes that privacy and paging speak of is this one |
| `Response.EveryNodeStamped` | models/node.go:236-279 | every node of an answer, at any depth, carries a token for its own authz fields, valid under the caller's key |
| `Response.ReturnedShowsOwnPrivateDataOnly` | responses/cogged.go:26-31 | anywhere in what a non-admin gets, private data stands only on nodes they own |
| `Response.ReturnedIffTokenGrantsRead` | responses/cogged.go:22-31 | a node is returned exactly when its own token, presented back, would grant reading |
| `Response.ReturnedIsAnswer` | responses/cogged.go:19-35 | the answer is, in order and without repetition, the redacted and stamped nodes that the caller owns, may read through their group, or any for sys |
| `Response.SeenIffTokenGrantsRead` | responses/cogged.go:22-31 | the condition of the loop is the decision of the packed token on "r" |
| `Response.RespondIsReturned` | responses/cogged.go:19-35 | the response layer that paging and privacy speak of returns the nodes that this loop returns |
| `TokenRuns.AuthzDataUnpackNodeSlice` | models/node.go:157-178 | accepts exactly a non-empty list of accepted entries; the first other entry decides, and panics exactly if it names no share group for its token |
| `AuthzStore.PutAllNew` | services/db.go:1029-1073 | writing new nodes at uids of their own stores exactly their owner, group and bits, and changes nobody else |
| `AuthzStore.PutAllRepeated` | services/db.go:1029-1073 | writing entries that repeat what is stored keeps all of it |
| `TokenRuns.NodeTokenIsStored` | models/node.go:82-122 | whatever reads as a node token under a key says what the store says of that node; a user's token never reads as one |
| `TokenRuns.CreationStores` | api/graph.go:60-127 | an accepted "PUT nodes" adds exactly the new records, owned by the caller in one group with the bits asked for |
| `TokenRuns.CreatedAsAsked` | api/graph.go:60-127 | each created node has a record at its own new uid with the caller as owner, the group and the bits asked for |
| `TokenRuns.CreationGroup` | api/graph.go:72-80 | the group is the generated one if a new one is asked for, and otherwise that of the parent in the store |
| `TokenRuns.StepKeeps` | services/db.go:1029-1096 | every creation, patch, edge or share request and every answer, refused or not, keeps the agreement of tokens and store |
| `TokenRuns.AuthzNeverChanges` | models/node.go:312-329 | over every run a node's owner and group never change after creation, and its bits only go from null to false |
| `TokenRuns.TokenAgreesWithStore` | models/node.go:124-133 | whenever a token was issued and whatever happened since, it gives the decision a fresh lookup would give |
| `PatchRuns.AcceptedPatchIsGranted` | api/graph.go:51-58 | every entry of an accepted patch is for a stored node that the caller owns, rules, or may write by its group and the write bit in the store |
| `PatchRuns.ChangedNodesAreGranted` | api/graph.go:51-58 | whatever step changes the record of a stored node, it is a patch by a caller whom the store grants "w" on it |
| `PatchRuns.EveryWriteWasGranted` | api/graph.go:51-58 | over every run, a record that is not what it was was changed by such a patch |
| `TokenRuns.ServerIsSound` | services/db.go:923-936 | the renaming of the upsert names placeholders by their digests, as the runs assume |
| `EdgeRuns.UserTokenChangesNothing` | models/node.go:157-178 | a patch with a genuine user token anywhere among its entries is not accepted and changes nothing, in every world |
| `EdgeRuns.UserTokenIsEnabled` | models/node.go:157-178 | such patches are steps of every world, with the signed text of any user |
| `EdgeRuns.ChangedEdgesAreGranted` | api/graph.go:60-145 | whatever edge a step adds or removes, it is a creation or an edge request of a caller whom the store itself grants both ends, or who creates them |
| `EdgeRuns.EveryEdgeWasGranted` | api/graph.go:60-145 | over every run, each edge in the database got there by such a step |
| `RootIds.AuthzDataUnpack` | requests/query.go:82-93 | only sys may bring a root query; each root token must grant and is replaced in place by the uid it proves |
| `Upsert.CheckUpsertNodeList` | services/db.go:987-1027 | accepts exactly the lists without nulls, without a temporary uid twice and without an edge to an undefined one; otherwise tells the first thing wrong, nodes before edges |
| `Upsert.AcceptableExactly` | services/db.go:987-1027 | of a list without nulls that is: distinct temporary uids, and every temporary edge target among them |
| `Upsert.MakeSafeUids` | services/db.go:946-961 | every node is renamed in place and the map leads from each blank name back to a temporary uid of the request with that name |
| `Upsert.RenameStubs` | services/db.go:1051-1061 | every stub is renamed in place and stripped of its token, and no name is added to the map |
| `Upsert.MapBack` | services/db.go:1078-1093 | a uid is skipped exactly if its name leads to no node of the request; the others are answered, each with the fields of its node |
| `Upsert.UpsertNodes` | services/db.go:1029-1096 | a list that is not acceptable is told its first error, and no node, stub or stored record changes; an accepted one stores exactly its renamed edges and fields and answers every temporary uid and no other, the skip branch never taken |
| `Upsert.UidOrSafeTempUid` | services/db.go:923-936 | a uid becomes the blank name of its digest exactly when its trimmed text is not the address of a node, and its trimmed text otherwise |
| `UpsertTheorems.RenamingIsInjective` | services/db.go:923-936 | two names of a request end up at one uid exactly when they mean the same node |
| `UpsertTheorems.StoredEdgesAreRequested` | services/db.go:1051-1073 | an edge is written between two named nodes exactly when the request asks for it |
| `UpsertTheorems.NewNodesHaveOnlyRequestedEdges` | services/db.go:1070-1073 | at a new node the database holds no other edges |
| `UpsertTheorems.CreatedIsBijection` | services/db.go:1075-1093 | the answer is a bijection from exactly the temporary uids to exactly the minted ones, each with the owner, group and bits of its entry |
| `UpsertTheorems.SharedStubLosesName` | services/db_integration_test.go:655-656 | a name renamed twice is the name renamed once exactly if two digests collide |
| `UpsertTheorems.UpsertSelfStub` | services/db.go:1029-1096 | on the heap: every new node that is its own stub is accepted and renamed twice, its uid leads to no node, the skip branch is taken and no new node is reported |
| `Subgraph.PlaceholdersEverywhere` | requests/createnodes.go:31-50 | validation that passes has found a placeholder on every node at every depth |
| `Subgraph.SomewhereNotPlaceholder` | requests/createnodes.go:31-50 | validation that fails has met a missing node or a uid that is no placeholder |
| `Subgraph.PlaceholderIsTemp` | requests/createnodes.go:21-23 | a placeholder never passes for the address of an existing node |
| `Subgraph.CutEdges` | api/graph.go:91-104 | a self link is found exactly when there is one; otherwise fresh stubs stand in place of the decoded edges and the linked uids are recorded |
| `Subgraph.OwnAndCut` | api/graph.go:88-105 | the first loop sets owner and group of every node, cuts every edge and collects exactly the linked uids |
| `Subgraph.StoreNodeOutgoingEdgeData` | services/db.go:897-921 | one more edge under the source, whose node is made at its first edge |
| `Subgraph.ParentEdges` | api/graph.go:107-119 | the parent gets edges to exactly the nodes no other new node links to, in order, or to the first if there are none |
| `Subgraph.RootsExactly` | api/graph.go:107-119 | if some new node is not linked to, those edges go to exactly the new nodes that no new node links to |
| `Subgraph.RootsOfCycles` | api/graph.go:107-119 | if every new node is linked to, there is one edge, to the first |
| `Subgraph.MakeList` | api/graph.go:78-123 | the list to upsert is the owned and cut nodes and the parent's edge node, all objects distinct |
| `Subgraph.PutNodes` | api/graph.go:78-127 | a self link changes nothing; otherwise the nodes and the parent are stored exactly when their placeholders are distinct and all defined |
| `CreateNodes.PutNodesRequest` | api/graph.go:60-127 | the whole handler: which of four refusals it gives, and nothing written with any; otherwise exactly the request's nodes, owned by the caller, and the parent's edges |
| `Reachability.ReachableExactlyWhenHanging` | api/graph.go:107-123 | in the whole database a new node can be reached from the parent exactly when the request links it from a node the parent was given an edge to |
| `Reachability.CreatedSubgraphsHangTogether` | api/graph.go:81-126 | acyclic placeholders: every new node is reachable; every node linked: exactly those below the first |
| `Reachability.AcyclicAllHang` | api/graph.go:107-114 | without cycles every new node hangs from one that nothing links to |
| `Edges.AddIncomingEdges` | services/db.go:1098-1118 | adds exactly the edges from every incoming node to every subject |
| `Edges.AddOutgoingEdges` | services/db.go:1120-1140 | adds exactly the edges from every subject to every outgoing node |
| `Edges.Database.UpdateEdges` | services/db.go:1185-1227 | adds or removes exactly the edges from an incoming node to a subject and from a subject to an outgoing node, whichever of them were there |
| `Edges.AddThenRemove` | services/db.go:1229-1245 | adding and then removing a request leaves the old edges less those edges, which is the old set exactly when there was no overlap |
| `Edges.EdgesRequest.AuthzDataUnpack` | requests/edges.go:23-37 | accepts exactly when every token grants what its end of the edges needs, and replaces the tokens by their uids |
| `Edges.UnpackOptional` | requests/edges.go:16-21 | an absent list passes, a present one must be granted entirely |
| `Edges.EveryEdgeIsChecked` | requests/edges.go:23-37 | each written edge's source passed the "o" check and its target the "i" check, or owner or sys |
| `Edges.AllowedExactly` | requests/edges.go:23-37 | a request is carried out exactly if it names subjects and neighbours and every token, by what it says, lets the caller put edges out of the sources and into the targets |
| `Edges.HandleEdges` | api/graph.go:129-145 | an authorised request with a direction changes exactly the edges asked for, all checked: they are there after an addition and gone after a deletion; any other request changes nothing |
| `Session.SessionManager.Handle` | state/user.go:70-158 | one pass of the message loop: the new maps and the reply, or none, for each operation |
| `Session.SessionManager.UsmRun` | state/user.go:64-163 | the loop answers each message from the state left by the messages before it |
| `Session.LiveExactly` | state/user.go:72-100 | a token id is live exactly when some message added it and none deleted it since |
| `Session.GrantedExactly` | state/user.go:101-142 | a group is allowed exactly when some comma list allowed it and no later one revoked it |
| `Session.ListingAgreesWithChecking` | state/user.go:143-155 | after any messages and for any map order, the client's list holds without repeats exactly the groups for which a check answers OK |
| `SessionProtocol.RepliesMatchReceives` | state/user.go:173-225 | every operation sends exactly as many replies as its wrapper receives, none on a nil channel |
| `SessionProtocol.StepKeepsInv` | state/user.go:64-163 | every rendezvous, processing step and reply keeps the protocol's invariant |
| `SessionProtocol.NeverStuck` | state/user.go:64-163 | while any call is unfinished some rendezvous or reply is possible |
| `SessionProtocol.StepsDoWork` | state/user.go:64-163 | and each one brings the end nearer, so without new calls everybody returns |
| `SessionProtocol.NoWorkMeansQuiet` | state/user.go:64-163 | when no work is left every client is idle and the loop is ready for the next message |
| `SessionProtocol.EveryCallLinearizes` | state/user.go:173-225 | every finished call took effect at one point between its call and its return, with the result of the sequential maps there |
| `SessionProtocol.RealTimeOrder` | state/user.go:173-225 | a call made after another returned takes effect after it |
| `SessionProtocol.UnacknowledgedAddIsSeen` | state/user.go:181-184 | a check made after an add returned fails only if the id was deleted in between |
| `SessionProtocol.UnacknowledgedRevokeIsSeen` | state/user.go:222-225 | a check made after a revoke returned succeeds only if the group was allowed again in between |
| `Sharing.UpdateAllowListSharedSgis` | api/user.go:33-58 | grants or revokes exactly the pieces of the readable groups not owned by the user, for any map order, touching nothing else; panics exactly on an unowned null read bit |
| `Sharing.PiecesOfCommaFree` | api/user.go:46-49 | for groups without commas nothing is split or lost |
| `Sharing.ShareDiesExactlyOn` | api/user.go:36-41 | which accepted nodes a share request panics on |
| `Sharing.OwnUnreadableNodeKillsShare` | models/node.go:124-133 | the token of an owner's node without the read bit is accepted for sharing, and unpacks to a node that dies for everybody else |
| `ShareRequest.HandleShare` | api/user.go:102-150 | which share requests are refused, not found, or panic before or after the share edges are written, and exactly which edges and allowlists have changed then; none of the users of one that succeeds is sys |
| `ShareRequest.BindsExactly` | api/user.go:102-108 | a share request gets past its binding exactly if it names nodes that the caller owns, rules or may share by their group and the share bit, and users whose tokens verify |
| `ShareRequest.UpdateLists` | api/user.go:123-125 | the users' allowlists are updated one after the other, up to the first user for whom a null bit is looked at |
| `ShareRequest.NodeTokenIsNoUser` | api/user.go:110-118 | a node's token among the users gets past the binding and then panics |
| `ShareRequest.OwnUnreadableNodeDies` | api/user.go:102-127 | every owner of an unreadable node who shares it with somebody else is such a late panic |
| `ShareRequest.PostSharedNodes` | api/user.go:77-101 | listing shared nodes panics exactly if the caller is not sys and some node, not theirs, was stored without a read bit; otherwise their list gains the groups of the readable ones |
| `ShareRuns.UnsharingAgreesExactly` | api/user.go:129-150 | from agreeing lists and edges, un-sharing keeps them in agreement exactly if it leaves nobody another node of a group it names |
| `ShareRuns.AlwaysAgreeExactly` | api/user.go:102-150 | lists and edges agree at every point of a run of share requests exactly if none of them un-shares some but not all of a user's nodes of a group |
| `ShareRuns.ListsAreNeverTooLong` | api/user.go:33-150 | over every run from a server start, a list holds only groups of readable nodes that are shared with its user |
| `ShareRuns.ListingRestores` | api/user.go:97-101 | a user who lists all that is shared with them has exactly the groups of those nodes afterwards |
| `ShareRuns.OneOfTwo` | api/user.go:129-150 | un-sharing one of two nodes of a group leaves the other shared and its group revoked |
| `ShareRuns.RequestsAreSteps` | api/user.go:102-150 | every share request on stored nodes that looks at no null read bit is a step of these runs |
| `ServerIds.TenBytes` | security/crypto.go:59-80 | any ten bytes, clock or random, make an id of fourteen characters in the share-group charset, without a comma or a dot |
| `ServerIds.ClocksTellIdsApart` | security/crypto.go:59-80 | equal ids were made a whole number of turns of the 48-bit millisecond clock apart, with the same random bytes |
| `ServerIds.ServerSgiIsHarmless` | security/crypto.go:59-80 | a server-made id of the present clock range is in the charset, without a comma or a dot, and holds neither marker |
| `ServerData.GroupsAreServerMade` | api/graph.go:60-127 | over every run whose new ids come from the server, the group of every stored node is such an id |
| `ServerData.StoredGroupsAreHarmless` | services/db.go:556-590 | for groups of stored nodes no marker gets into the query text, no comma list or read filter loses one, and every stored node can be packed into a token |
| `ServerData.ReadFiltersAgree` | services/db.go:565-590 | for those groups and a canonical caller the in-query test is the response test on every node |
| `Bearer.TokenRoundTrip` | security/auth.go:38-77 | a token gives back its own fields for all fields without a dot, and nobody otherwise |
| `Bearer.ServerTimestamp` | cmd/cogged/main.go:47-54 | a server-made timestamp passes exactly while it is younger than the lifetime |
| `Bearer.CheckToken` | cmd/cogged/main.go:85-110 | refuses exactly authentic tokens that are late or of a dead session; a late one ends its session |
| `Bearer.AcceptsExactly` | cmd/cogged/main.go:85-110 | accepted is exactly a single header of the Bearer scheme whose first word after it verifies as a caller with a young token and a live session |
| `Bearer.ServeHTTP` | cmd/cogged/main.go:60-181 | dispatched are exactly JSON requests to a handled group with an accepted token, in the admin group only that of sys, and to the three open routes without a token; a path of one segment panics; anyone else gets the status of the first thing wrong; the only change is that a late token's id is dead |
| `Bearer.OneSegmentPanics` | cmd/cogged/main.go:136-139 | with a path of one segment outside the admin group exactly the callers with a good token get that far |
| `Bearer.GraphIsOneSegment` | cmd/cogged/main.go:136-139 | such a path is `/graph` |
| `Bearer.PostLogin` | api/auth.go:78-80 | the new id is live and the token carries user, role and id |
| `Bearer.GetRefresh` | api/auth.go:88-91 | the new token of a verified caller names the same user, role, id and key with the new time, and is young then; the session manager is not asked |
| `Bearer.PostLogout` | api/auth.go:84-86 | the caller's id is not live any more |
| `Bearer.AcceptedWhileLiveAndYoung` | cmd/cogged/main.go:85-110 | the gate accepts a server-made token exactly while its id is live, it is young and no field has a dot |
| `BearerRuns.StepKeepsInv` | api/auth.go:59-94 | every step of logins, refreshes, logouts and presentations, however interleaved, keeps issued tokens tied to logins |
| `BearerRuns.AcceptedTracesToLogin` | cmd/cogged/main.go:85-110 | every accepted token goes back through refreshes to a login with the same uid, role and id, is young, and its id is alive |
| `BearerRuns.NoneAcceptedUntilMintedAgain` | cmd/cogged/main.go:98-107 | after a logout or an expired presentation of an id, no token of that id is accepted until a login mints it again |
| `Text.SplitOfJoin` | state/user.go:155-212 | splitting undoes joining on non-empty lists of pieces without the separator |
| `Text.JoinOfSplit` | state/user.go:118-136 | joining undoes splitting on every text |
| `Text.SplitAround` | api/user.go:46-49 | splitting around one separator is splitting both sides |
| `Text.TrimSpaceCuts` | services/db.go:391-393 | trimming cuts nothing but spaces, and all of them at both ends |

## Left out

- Dgraph itself, its schema, transactions and configuration: replaced by the abstract store described above.
- Orders, similarity and distance: what Dgraph ranks first is any order that depends only on the values; whether it equals real distances is not modelled.
- JSON, reflection, HTTP headers other than content type and authorisation, and logging: the model starts from decoded requests.
- SHA, MD5, Argon2, AES-GCM and random generation are opaque; password checks and generated token ids are not modelled.
- The branch of `GenerateSgi` for a failed write into a buffer, which cannot fail: ten random bytes might spell a marker.
- QueryRun.Prepare: reads a root query as a filter, while a root function of Dgraph is a single call; a compiled `and`/`or` there, which only sys can ask for, would be a parse error in Dgraph.
- ShareRuns.AlwaysAgreeExactly: speaks of requests that are completed; what one leaves behind that panics or finds the database silent is in `ShareRequest.HandleShare`.
- Float formatting and the range checks of geo blocks: a block is good or bad, and a good one renders as plain decimal texts.
- Response trees are values, as they come from decoded JSON; cyclic graphs in memory cannot arise there.
- Stamping of created nodes and the filtering of result users in responses/cogged.go: thin loops over the same packing.
- Patches with out-edges (excluded by openapi3.yaml:1489) and owners with more fields than a uid.
- `PUT node` (services/db.go:1368-1397) is a step of `TokenRuns` without a method of its own; the edges from users to their nodes are not among the edges of the runs.
- Modification and creation times: only the fact that new nodes are marked is modelled.
- A real uid is kept as its trimmed text; that Dgraph reads `0X1` and `0x1` as one node is not modelled.
- Upsert.UpsertNodes: takes decoded objects that are pairwise distinct; with shared stubs the renaming goes wrong, as `UpsertTheorems.UpsertSelfStub` shows.
- What a query vector looks like beyond brackets, digits, signs, points, exponents, commas and blanks: a text that the vector pattern rejects is a bad vector.
- BearerRuns.AcceptedTracesToLogin: a question to the session manager is one step, which `SessionProtocol` justifies; the two models are not composed into one.
- Admin handlers, user lookups, the health endpoint and the client libraries: thin wrappers.
