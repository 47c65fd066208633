# krouter, verified model

This project models the parts of krouter, a Kubernetes Gateway API router, that carry its
guarantees, and proves those guarantees in Dafny. `dafny verify dfyconfig.toml` checks it.

- **The generation protocol.** The control plane writes immutable, content-addressed objects,
  then a manifest as commit marker, then collects old generations. Pods read the store in two
  calls, queue the snapshot, verify it, and swap tables or keep the last valid ones. A poller
  carries acknowledgements back. `Protocol` is the transition system, one step per API call,
  with crashes, outside deletion and alteration, pod restarts and list failures; `Safety`,
  `Closure`, `Acknowledging`, `Versions`, `Histories`, `Convergence`, `Schedules`, `Retention`,
  `Forgetting` and `Departures` are its theorems. `Compiled`, `Publishing`, `Loading`, `Building` and `Serving`
  hold the data and the code that the steps perform, `Digests` why names and hashes determine
  content.
- **What is published and what becomes of it.** `Validating`, `Attaching`, `Compiling` and
  `Syncing` are the control plane's side, `Agreement`, `Collisions`, `Authenticating` and
  `Delivering` exactly when the data plane makes of it what was meant; `Certificates` is how each
  side reads PEM.
- **The routing engine.** `Hostnames`, `Matching`, `Precedence`, `Ownership`, `Balancing`,
  `Merging`.
- **Internal ports** (`Ports`), **rate limiting** (`RateLimiting`), **session cookies**
  (`Sessions`), **the PROXY protocol reader** (`ProxyProtocol`).

`Strings`, `Arithmetic` and `Indices` are shared tools. Code that changes state is modelled by classes and
methods proved against functions of the old state; the theorems are about those functions.

## Premises

- SHA-256, and its 12-digit prefix, is injective: in the protocol a generation is its content and
  a checksum is what it was taken of. `Digests` proves that the hashed bytes determine that
  content, for payloads and UIDs without NUL and Secret keys without line feeds.
- JSON decodes what it encoded. X.509 key pairs, network prefixes and SAML metadata are checked by
  arbitrary predicates, and PEM text decodes to an arbitrary list of blocks. The certificate pool
  of Go's standard library takes in certificate blocks that parse and have no headers.
- An authentication identity stands for its list of Secrets: it is not empty, and rules with the
  same Secrets have the same merged document (`Authenticating.Identified`).
- There is one control plane at a time. A list call returns one state of its kind of object.
  Resource versions are never reused. Mailboxes are first in, first out. The environment may
  delete any generated object, replace the content of generation objects, and make manifests
  unreadable, but keeps labels and writes no readable manifest of its own.
- Text is ASCII. Hostnames are lower case and, like paths, shorter than 65536 where stated.
- Gateway UIDs are non-empty and hold no `|`; UIDs in object names have 36 characters.
- The limiter counts in exact rationals, with requests, window and burst at least one, and reads
  the clock in lock order, except where clocks out of order are the point.
- AEAD is an abstract pair of functions with `open(seal(s)) = s`; a browser drops expired cookies.
- Address text is an abstract pair of functions that round trips.

## Findings

The code is modelled as it is. These statements of the documentation or of a comment do not hold
of it in general; the exact condition, or an input that shows the failure, is proved.

- `docs/spec/configuration.md:61` asks for stored objects to be verified before the commit. An
  existing object is never compared with what should be there, so an altered one blocks
  restoration (`Publishing.RestorationIsExact`).
- `docs/spec/configuration.md:102-104` asks for the preceding programmed generation to be kept.
  The one kept is the one committed before, so the programmed one is kept exactly while it is also
  that one, or until every healthy pod runs the desired one
  (`Retention.PrecedingProgrammedIsSparedExactly`); a run deletes it
  (`Forgetting.PrecedingProgrammedIsCollected`).
- `docs/spec/configuration.md:107-110` keeps invalid user configuration apart from load failures of
  the data plane. A client CA bundle whose certificates all carry PEM headers passes
  `internal/lib/k8s/gatewayapi/backendtls.go:320-337` and is refused at
  `internal/lib/transports/http/routing/build.go:105-108`, so its generation loads on no pod
  (`Agreement.CompiledIsAdmittedExactly`, `Agreement.HeaderedBundleIsRefused`).
- `docs/spec/authentication.md:131-133` has documents validated statically. Inline SAML metadata is
  copied unread (`internal/extensions/auth/merge.go:373-377`) and parsed only by the pods
  (`internal/extensions/auth/saml.go:72-76`), and an LDAP bundle with headered certificates only
  passes `internal/extensions/auth/merge.go:486-504` and fails at
  `internal/extensions/auth/ldap.go:39-43`; the rule then fails closed unmarked
  (`Authenticating.RuleFailsClosedExactly`, `Authenticating.UnparsedMetadataFailsClosed`).
- `docs/spec/traffic.md:233-235` asks for 421 whenever the authority belongs to another listener
  than the one the connection's SNI selected. An SNI that no listener has passes the check, while
  the handshake used the first certificate listener and its client policy
  (`Ownership.UnmisdirectedStaysOnListener`, `Ownership.UnknownNameIsNotMisdirected`).
- `internal/lib/k8s/gatewayapi/ports.go:13-17` says a restart never renumbers an active
  allocation. A generation is published before its ports are persisted, so this holds of
  persisted ones (`Ports.PersistedNeverMoves`, `Ports.UnpersistedPortMovesOn`).
- `internal/extensions/ratelimiting/limiter.go:110-111` says sweeping grants no extra capacity.
  That needs a condition on burst (`RateLimiting.RateBoundIsExact`).
- `docs/spec/extensions.md:118` defines Retry-After as the whole seconds until the next token. The
  header is computed from a truncated wait and can be too early
  (`RateLimiting.RetryAfterIsHonoured`, `RateLimiting.RetryAfterCanFail`).
- `internal/lib/k8s/gatewayapi/types.go:109-111` says effective names are unique. They can collide
  (`Collisions.EffectiveNamesCollide`); certificates are then the later listener's
  (`Agreement.OwnMaterialIsExact`) and so are the routes (`Collisions.OwnRoutesIsExact`,
  `Collisions.CollisionMisplaces`).

These are the exact forms of properties the repository does not promise outright.

- Certificate choice agrees with listener ownership unless a shorter wildcard stands before one
  nested in it (`Ownership.CertificateAgreementIsExact`).
- Hostname intersection is reachability but for an empty route hostname
  (`Hostnames.IntersectionIsReachability`).
- Version 1 preambles round trip but for IPv4-mapped sources, which the reader refuses on purpose
  (`ProxyProtocol.Version1RoundTrip`).
- The status a pod inherits from its previous report never names a generation, so that branch of
  the loader has no effect (`Serving.RebuildReportsServed`).

## Model

| member | source | states |
|---|---|---|
| `Safety.ServedIsOneCommittedGeneration` | internal/lib/transports/http/routing/load.go:18-90 | In every reachable state, under torn reads, crashes between any two writes, collection, and outside deletion or alteration, each table a pod serves is the table of the complete object set of exactly one generation the control plane committed for that gateway |
| `Safety.RunKeepsInvariant` | internal/app/dataplane/loader/worker.go:69-153 | The invariant behind it, over every run: whatever store, half-read listing, queued snapshot or table exists, readable manifests are committed ones and tables are those of whole committed generations |
| `Safety.RebuildIsNeverBlocked` | internal/app/dataplane/loader/worker.go:69-82 | Every queued snapshot labels its manifests by name, so the loader can always process it |
| `Safety.PodsServingOneGenerationAgree` | internal/lib/transports/http/routing/match.go:25-111 | Any two pods, in whatever reachable states, that serve one generation of a gateway pick the same rule for every request on a well-formed port |
| `Closure.OwnedManifestIsClosed` | internal/lib/k8s/gatewayapi/publish.go:149-197 | At every control-plane step, crash points included, the manifest of a continuously owned, untouched gateway names only objects that exist with the listed checksum |
| `Closure.PublicationRestores` | internal/lib/k8s/gatewayapi/publish.go:202-327 | From any reachable state, one uninterrupted publication over unaltered survivors closes the manifest again, whatever pods and other gateways do meanwhile |
| `Closure.CollectionSparesRetained` | internal/lib/k8s/gatewayapi/publish.go:331-375 | Generation collection never deletes a desired, previous or polled-acknowledged generation, and runs only once every healthy pod of the poll acknowledges the desired one |
| `Closure.SweepSparesOwned` | internal/lib/k8s/gatewayapi/publish.go:380-400 | Orphan collection never deletes an object of a gateway the sync owns, although it works from a stale listing |
| `Closure.SweepIsExact` | internal/lib/k8s/gatewayapi/publish.go:380-400 | and sets out to delete exactly the listed objects labelled with a gateway the sync does not own |
| `Closure.DeletionIsExact` | internal/lib/k8s/gatewayapi/publish.go:343-375 | A deleting step removes the object of its name, of either kind, and no other |
| `Closure.RunKeepsClosure` | internal/lib/k8s/gatewayapi/publish.go:149-375 | Over every run: a gateway whose last publication ran undisturbed over unaltered objects stays closed until somebody touches its objects or a sync stops owning it |
| `Publishing.RestorationIsExact` | internal/lib/k8s/gatewayapi/publish.go:202-262 | From any store at all, a publication ends with a closed manifest of the published generation if and only if no surviving object of that generation was altered (an existing name is never compared with its content) |
| `Publishing.RepublishingIsIdle` | internal/lib/k8s/gatewayapi/publish.go:264-327 | Publishing what is published writes nothing; another walk order of the route map rewrites only the manifest's object list and keeps the remembered previous generation |
| `Publishing.RetentionIsExact` | internal/lib/k8s/gatewayapi/publish.go:298-340 | A publication spares a generation from collection if and only if it is the published one, the one the readable manifest held before (what that remembered, when it is published again), or one some pod reports |
| `Publishing.SkippedGenerationIsForgotten` | internal/lib/k8s/gatewayapi/publish.go:298-340 | So two publications in a row leave the generation before them unprotected, also when it was the last one programmed |
| `Retention.RunRecalls` | internal/lib/k8s/gatewayapi/publish.go:298-327 | Over every run that leaves the manifest alone, it holds the last committed generation and remembers the last other one committed before it |
| `Retention.CollectedExactly` | internal/lib/k8s/gatewayapi/publish.go:331-375 | In any run, an object a sync listed is collected after a publication if and only if every healthy pod runs the desired generation and the object's is neither that one nor the last other one committed |
| `Retention.PrecedingProgrammedIsSparedExactly` | internal/lib/k8s/gatewayapi/publish.go:331-375 | So the generation programmed before the desired one is spared if and only if the poll shows no healthy pod or one that does not run the desired one yet, or it is also the last other generation committed |
| `Forgetting.PrecedingProgrammedIsCollected` | internal/lib/k8s/gatewayapi/publish.go:331-375 | A run, for any three generations in turn, in which a pod programs the first, the second is committed and skipped, and the sync that finds the third acknowledged deletes an object of the first |
| `Publishing.AllAcked` | internal/lib/k8s/gatewayapi/types.go:266-283 | True exactly when some pod is healthy and every healthy pod reports the generation as applied |
| `Publishing.AckedGenerations` | internal/lib/k8s/gatewayapi/types.go:287-297 | Exactly the non-empty generations some pod reports for the gateway |
| `Publishing.Publisher.EnsureImmutableConfigMap` | internal/lib/k8s/gatewayapi/publish.go:202-230 | Creates the object unless the name is taken, and then leaves the store as it is |
| `Publishing.Publisher.EnsureGeneratedSecret` | internal/lib/k8s/gatewayapi/publish.go:232-262 | The same for the generated Secret |
| `Publishing.Publisher.EnsureManifest` | internal/lib/k8s/gatewayapi/publish.go:264-327 | Commits the manifest with the generation it replaces, over an absent, unreadable, older or equal one, and writes nothing when nothing changes |
| `Publishing.Publisher.CollectGenerations` | internal/lib/k8s/gatewayapi/publish.go:331-375 | Deletes exactly the listed objects of the gateway outside the retained generations, and nothing unless every healthy pod acknowledges |
| `Publishing.Publisher.PublishGeneration` | internal/lib/k8s/gatewayapi/publish.go:137-193 | The write sequence up to the commit leaves exactly the store of one publication |
| `Protocol.StepsMakePublication` | internal/lib/k8s/gatewayapi/publish.go:149-193 | The single-write steps of the transition system, taken without a break, make exactly one publication |
| `Acknowledging.AcknowledgedWasServed` | internal/app/dataplane/loader/worker.go:118-153 | A generation a pod reports as applied is empty or one whose table it had already published, and once a rebuild's statuses are out, the one it serves |
| `Acknowledging.ProgrammedMeansServed` | internal/lib/k8s/gatewayapi/engine.go:412-431 | Whenever a gateway is declared programmed, every pod healthy in the poll the sync was given had served exactly that generation at an earlier moment |
| `Acknowledging.RecordedIsHistory` | internal/lib/transports/http/routing/types.go:367-374 | The services the proofs record are moments of the run at which the published tables held that generation |
| `Acknowledging.LastValidIsKept` | internal/app/dataplane/loader/worker.go:91-138 | Once a pod serves a gateway it keeps serving it, by a table of one whole committed generation, as long as every processed snapshot carries its manifest |
| `Acknowledging.HistoriesAreIsolated` | internal/app/dataplane/loader/worker.go:74-138 | Two pods whose snapshots agree on one gateway's manifest and objects serve and report the same for it, whatever their other gateways contain |
| `Histories.QueueLosesNothing` | internal/app/dataplane/configwatcher/worker.go:63-92 | Over every run, the snapshots a pod mailed, those of its reads in which some name or version had changed, are the ones it has processed followed by its queue |
| `Histories.PodIsItsHistory` | internal/app/dataplane/loader/worker.go:69-153 | In every reachable state a pod serves and reports exactly what processing its snapshots one after another gives |
| `Histories.PodsAreIsolated` | internal/app/dataplane/loader/worker.go:74-138 | So two pods, in whatever reachable states, whose histories agree on one gateway serve it alike and report the same of it |
| `Versions.SkippedIsRemembered` | internal/app/dataplane/configwatcher/worker.go:63-92 | A watcher that skips a snapshot because all versions are those it remembers has lost nothing: what it last sent is that very snapshot |
| `Versions.RunKeepsTrack` | internal/app/dataplane/configwatcher/worker.go:46-93 | Over every run, versions identify content, and the snapshot last sent is the last in the mailbox or the last one processed |
| `Convergence.PublishedGenerationIsAcked` | internal/app/controlplane/ackpoller/worker.go:66-99 | After one publication, a poll in which each healthy pod has read the store and drained its queue before it is polled makes AllAcked true for the desired generation, whatever unready pods, pod restarts and syncs do meanwhile |
| `Convergence.CaughtUpIsConverged` | internal/app/dataplane/loader/worker.go:95-113 | A pod that has read since the publication and once drained its queue applies the generation from then on until it restarts, also when the read was skipped as unchanged |
| `Convergence.TornReadCarries` | internal/app/dataplane/configwatcher/worker.go:49-61 | Two halves of a read that stem from different commits of one generation still make a loadable snapshot |
| `Convergence.WindowIsSteady` | internal/lib/k8s/gatewayapi/engine.go:277-324 | While a gateway's inputs stay, repeated syncs, collection and sweeps leave its manifest at the generation and closed |
| `Convergence.PublicationMakesSteady` | internal/lib/k8s/gatewayapi/publish.go:149-193 | One uninterrupted publication establishes the premise of convergence |
| `Schedules.ConvergesInBoundedSteps` | internal/app/dataplane/configwatcher/worker.go:34-93 | From any reachable published state there is a continuation, linear in the queued snapshots and the pods, after which every pod is healthy and acknowledges the generation |
| `Departures.UnlistedIsNotServed` | internal/app/dataplane/loader/worker.go:69-138 | In every run, a pod that has processed everything it was sent, the last of it without a gateway's manifest, neither serves nor reports the gateway |
| `Departures.DepartedIsNotServed` | internal/app/dataplane/loader/worker.go:69-138 | Once a gateway's manifest is gone and while the gateway is not published again, a pod that has read the store and drained its queue since never serves or reports it, whatever else goes on |
| `Departures.UnownedGatewayDisappears` | internal/lib/k8s/gatewayapi/engine.go:295-322 | From any reachable state between syncs, a sync that does not own a gateway and one read and drain of each pod leave no pod that serves or reports it |
| `Serving.GatewaysAreIsolated` | internal/app/dataplane/loader/worker.go:74-136 | One rebuild: a gateway's table and status depend only on its own manifest, the objects that lists, and its own previous table and status |
| `Serving.ServedStaysServed` | internal/app/dataplane/loader/worker.go:118-133 | A served gateway stays served by every snapshot that carries its manifest |
| `Serving.RebuildReportsServed` | internal/app/dataplane/loader/worker.go:109-133 | The reported generation is always that of the served table or empty, so the status inherited from the previous report never names one |
| `Serving.Watcher.Poll` | internal/app/dataplane/configwatcher/worker.go:63-92 | Mails the snapshot exactly when some name or version changed, and remembers it after mailing |
| `Serving.Loader.Rebuild` | internal/app/dataplane/loader/worker.go:69-153 | Tables and statuses after a rebuild are those every gateway is judged to have, in whatever order the snapshot map is walked |
| `Serving.MissingIsDropped` | internal/app/dataplane/loader/worker.go:69-82 | A gateway is reported after a rebuild exactly when the snapshot has a manifest of it, and served only then |
| `Serving.RebuildIsExact` | internal/app/dataplane/loader/worker.go:84-138 | For a gateway with a manifest: the served table stays if it is of the manifest's generation or that does not load, and is replaced by the loaded one otherwise; the report fails exactly when nothing of the generation is served |
| `Serving.Loader.JudgeManifest` | internal/app/dataplane/loader/worker.go:84-133 | Reuse, load, or last-valid fallback of one gateway |
| `Loading.LoadIsWholeGeneration` | internal/lib/transports/http/routing/load.go:28-90 | For a committed manifest, loading succeeds if and only if every object is present unaltered and the build's checks pass, and then gives the table of the whole generation |
| `Loading.LoadGeneration` | internal/lib/transports/http/routing/load.go:18-90 | The object loop with its early returns: absence, identity, checksum, payload, role, kind, missing gateway configuration |
| `Loading.OnlyVerifiedLoads` | internal/lib/transports/http/routing/load.go:28-90 | Whatever a manifest lists, its generation loads only when every object is there, labelled with the gateway, unaltered and of the kind its label says, and one is a gateway configuration; then only the build can refuse it |
| `Loading.FirstFailureIsReported` | internal/lib/transports/http/routing/load.go:28-77 | The error is that of the first object that is not |
| `Loading.PodsOfOneGenerationAgree` | internal/lib/k8s/gatewayapi/publish.go:159-174 | Pods that loaded one generation from manifests in different object orders choose the same listener, route and rule for every request |
| `Building.BuildGatewayTable` | internal/lib/transports/http/routing/build.go:50-269 | Builds the specified table, or none |
| `Building.RefusalHasCause` | internal/lib/transports/http/routing/build.go:63-159 | None exactly when a trusted proxy is no network, a TLS listener has no key pair under its name, one with client validation no certificate block without headers, or an announced backend client certificate no pair |
| `Building.PortHoldsItsListeners` | internal/lib/transports/http/routing/build.go:120-141 | A built table has a port exactly when some listener has it as internal port, and the port holds the tables of exactly those listeners, more specific hostnames first and each kind as declared |
| `Building.HydrationIsExact` | internal/lib/transports/http/routing/build.go:28-44 | An authentication document hydrates exactly when it decodes, its LDAP bundle has a certificate without headers, and its SAML part a key pair and inline metadata that parses |
| `Building.MissingDocumentFailsClosed` | internal/lib/transports/http/routing/build.go:199-210 | A rule whose document is missing or does not hydrate fails closed, whatever the Secret |
| `Building.RouteOrderOnlyPermutes` | internal/lib/transports/http/routing/build.go:163-258 | Another order of the attachments changes only the order of routes inside each listener |
| `Building.SortIsSorted` | internal/lib/transports/http/routing/build.go:260-266 | Listeners of a port end up most specific first |
| `Building.SortIsStable` | internal/lib/transports/http/routing/build.go:262-265 | Within one specificity the declaration order stays |
| `Building.SortIsPermutation` | internal/lib/transports/http/routing/build.go:262-265 | No listener is lost or duplicated by the sort |
| `Merging.MergeTables` | internal/lib/transports/http/routing/build.go:465-479 | Every merged port comes from some gateway, and no gateway's port is overwritten if and only if gateways agree on shared ports |
| `Syncing.ValidateListeners` | internal/lib/k8s/gatewayapi/compile.go:28-59 | The listeners of one gateway: each validated with the allocator's answer for its group, the allocator left with exactly those grants, and conflicts rejected in precedence order |
| `Syncing.SyncAllocates` | internal/lib/k8s/gatewayapi/engine.go:295-314 | The allocations of all gateways of a sync are steps of the allocator's run |
| `Syncing.SyncTablesMerge` | internal/lib/transports/http/routing/build.go:461-479 | In whatever reachable state of the port annotations a sync begins, the tables of the generations it compiles never share a port across gateways, so merging them overwrites nothing |
| `Syncing.SyncPortsAreWellFormed` | internal/lib/k8s/gatewayapi/compile.go:226-269 | On every internal port of a generation compiled in a sync hostnames and route keys are pairwise distinct, which is what makes rule lookup unambiguous |
| `Syncing.SyncHostsApart` | internal/lib/k8s/gatewayapi/compile.go:226-269 | Valid listeners of one gateway that share an internal port differ in hostname |
| `Syncing.SyncIsAdmittedExactly` | internal/lib/k8s/gatewayapi/compile.go:28-121 | What a sync compiles for a gateway passes the build's checks if and only if its served client CA bundles load |
| `Certificates.ValidCaPem` | internal/lib/k8s/gatewayapi/backendtls.go:320-337 | True exactly when some PEM block of type CERTIFICATE parses, headers or not |
| `Validating.ValidateListener` | internal/lib/k8s/gatewayapi/compile.go:63-121 | The whole state of a validated listener, from its declaration, its references and the allocator's answer |
| `Validating.ValidatedIsServable` | internal/lib/k8s/gatewayapi/compile.go:63-121 | Whatever validation makes of a listener, its material is under its own keys only, key pairs match, a client CA bundle is there exactly with its mode, and a valid terminating listener has a certificate |
| `Validating.ValidExactly` | internal/lib/k8s/gatewayapi/compile.go:63-121 | A listener is valid exactly when its protocol is supported, a TLS one says what to do, kinds, certificates and client CA resolve and it got a port; it then has the last key pair, the bundle and the mode |
| `Validating.ValidatedHasPort` | internal/lib/k8s/gatewayapi/compile.go:82-118 | Whatever comes of it, a listener keeps its declaration, and a valid one has the allocator's port |
| `Validating.ResolveCertificates` | internal/lib/k8s/gatewayapi/compile.go:365-447 | The loop over certificate references; the last is served |
| `Validating.CertsResolveExactly` | internal/lib/k8s/gatewayapi/compile.go:365-447 | Certificates resolve exactly when there is a reference and each is to a permitted, existing Secret with a certificate and key that pair |
| `Validating.ResolveFrontend` | internal/lib/k8s/gatewayapi/compile.go:153-219 | The loop over client CA references and the test of their bundle |
| `Validating.FrontendResolvesExactly` | internal/lib/k8s/gatewayapi/compile.go:153-219 | Client validation resolves exactly when each reference is to a permitted, existing ConfigMap and some certificate block of the bundle parses; the mode defaults to AllowValidOnly |
| `Validating.BundleJoins` | internal/lib/k8s/gatewayapi/compile.go:190-205 | The bundle is the certificates of all references, each ended by a line feed |
| `Attaching.ValidateAuth` | internal/extensions/auth/merge.go:212-282 | What validation of a merged authentication document demands: a provider, an LDAP bundle with a certificate, a SAML key pair; inline metadata is not looked at |
| `Attaching.CompileExtensions` | internal/lib/k8s/gatewayapi/extensions.go:196-229 | A rule gets an identity and its document is stored under it in one go, or the rule is marked to fail closed |
| `Attaching.CompileRules` | internal/lib/k8s/gatewayapi/compile.go:1118-1161 | The rules of a route and the documents they leave behind, later ones over earlier ones of the same identity |
| `Attaching.NameListeners` | internal/lib/k8s/gatewayapi/compile.go:1107-1111 | The effective names of the valid ones among the listeners that admit a route |
| `Compiling.Compile` | internal/lib/k8s/gatewayapi/publish.go:33-133 | The compiled content of one publication: listener entries, merged routes, Secret material |
| `Agreement.CompiledIsAdmittedExactly` | internal/lib/transports/http/routing/build.go:63-159 | A generation compiled from validated inputs passes all checks of the build if and only if every client CA bundle that is served has a certificate block without headers, even when listener names collide |
| `Agreement.PublishedLoadsExactly` | internal/lib/k8s/gatewayapi/publish.go:33-193 | What a publication leaves in the store loads under exactly that condition, and gives the table of the compiled content |
| `Agreement.HeaderedBundleIsRefused` | internal/lib/transports/http/routing/build.go:99-108 | A bundle whose only certificate carries headers: the listener is valid, and every pod refuses the generation |
| `Agreement.ClientCertIsServed` | internal/lib/k8s/gatewayapi/publish.go:52-57 | A backend client certificate is announced exactly when one resolved, and is the one in the Secret unless a listener has its reserved name |
| `Agreement.EntryCarries` | internal/lib/k8s/gatewayapi/publish.go:59-91 | A compiled listener carries its declaration, and requires a preamble exactly when it is the Gateway's own and named in the parameter |
| `Agreement.OwnMaterialIsExact` | internal/lib/k8s/gatewayapi/publish.go:86-88 | Every valid listener finds its own certificates in the Secret if and only if no two valid listeners write different material under one key |
| `Agreement.DistinctNamesNeverOverwrite` | internal/lib/k8s/gatewayapi/types.go:112-118 | Distinct effective names are enough for that |
| `Collisions.EffectiveNamesCollide` | internal/lib/k8s/gatewayapi/types.go:112-118 | But effective names of different ListenerSets can coincide, since the separator may occur in names |
| `Collisions.OwnRoutesIsExact` | internal/lib/transports/http/routing/build.go:120-257 | Every valid listener serves exactly the routes attached to it if and only if no route is attached to a listener whose effective name a later valid listener also has |
| `Collisions.CollisionMisplaces` | internal/lib/transports/http/routing/build.go:140-257 | Two listeners that do not clash but share a name: the first serves nothing, its route answers under the second one's hostname, and the certificate is the second one's |
| `Delivering.PortsServeOwnExactly` | internal/lib/transports/http/routing/build.go:120-266 | The port tables of a pod hold one table for each valid listener of the port, with exactly the routes attached to it, if and only if no route is attached to a listener whose effective name a later valid listener also has |
| `Delivering.ServedRouteIsSpecified` | internal/lib/transports/http/routing/build.go:163-258 | A published route is served with the names, hostnames, age, kind, matches and positive-weight backends of its specification, and each rule fails closed exactly when it must |
| `Delivering.AnswerIsSpecified` | internal/lib/transports/http/routing/match.go:25-111 | Whatever rule answers a request on a port is one of a route attached to a valid listener of that port whose hostname the host matches, and is as specified |
| `Authenticating.DocumentIsFound` | internal/lib/k8s/gatewayapi/publish.go:99-110 | The document stored under an attached rule's identity is that of an attached rule with that identity |
| `Authenticating.DocumentHasRule` | internal/lib/k8s/gatewayapi/publish.go:99-110 | The Secret holds no document but those of rules attached to a valid listener |
| `Authenticating.FailsClosedExactly` | internal/lib/transports/http/routing/build.go:28-44 | A published rule fails closed if and only if it is marked or the document stored under its identity does not hydrate; a document there always is |
| `Authenticating.RuleFailsClosedExactly` | internal/lib/transports/http/routing/build.go:199-210 | In terms of the rule as specified: it is marked, or its accepted document has an LDAP bundle with headered certificates only or inline SAML metadata that does not parse |
| `Authenticating.UnparsedMetadataFailsClosed` | internal/extensions/auth/saml.go:72-76 | Such a rule: not marked by the control plane, and failing closed on every pod |
| `Digests.GenerationTextIsDecodable` | internal/lib/k8s/compiled/compiled.go:401-419 | Equal hashed texts mean equal gateway payload, attachments and Secret checksum, whatever order the maps were walked in |
| `Digests.GenerationText` | internal/lib/k8s/compiled/compiled.go:403-418 | The text is the same for every walk of the attachment map |
| `Digests.SortedKeysAreUnique` | internal/lib/k8s/compiled/compiled.go:404-408 | Sorted key lists of one map are equal |
| `Digests.SecretTextIsDecodable` | internal/lib/k8s/compiled/compiled.go:386-399 | Equal hashed texts mean equal Secret data |
| `Digests.SecretText` | internal/lib/k8s/compiled/compiled.go:386-398 | The text is the same for every walk of the data map |
| `Digests.NamesAreDistinct` | internal/lib/k8s/compiled/compiled.go:444-458 | Distinct objects have distinct names, so an existing name is the object itself |
| `Digests.SnapshotTextIsDecodable` | internal/app/dataplane/configwatcher/worker.go:63-73 | Equal snapshot texts mean equal names and versions of both lists |
| `Digests.SnapshotText` | internal/app/dataplane/configwatcher/worker.go:63-69 | The text of both lists, one record per object |
| `Ports.GroupsNeverShare` | internal/lib/k8s/gatewayapi/ports.go:54-74 | In one sync of any run, distinct (gateway, external port, protocol) groups never share an internal port |
| `Ports.PersistedNeverMoves` | internal/lib/k8s/gatewayapi/ports.go:24-51 | A persisted allocation is never renumbered or given to another group while its Service exists, across any sequence of syncs and crashes |
| `Ports.RebuildRecovers` | internal/lib/k8s/gatewayapi/ports.go:24-90 | Rebuilding from the rendered maps recovers every persisted assignment and nothing else |
| `Ports.AllocationIsFresh` | internal/lib/k8s/gatewayapi/ports.go:54-74 | An allocation keeps what is held, never hands a port out twice, and fails exactly when the group is new and the whole range is used |
| `Ports.AssignedExactly` | internal/lib/k8s/gatewayapi/ports.go:24-51 | What an allocator starts from is exactly the decodable port maps of the labelled Services, later ones over earlier |
| `Ports.UsedExactly` | internal/lib/k8s/gatewayapi/ports.go:24-51 | and the ports it takes for used are exactly those in there |
| `Ports.FirstFreeIsFirst` | internal/lib/k8s/gatewayapi/ports.go:61-71 | The port handed to a new group is the first candidate of the range, after conversion to 32 bits, that is not in use |
| `Ports.PersistingWritesDown` | internal/lib/k8s/gatewayapi/ports.go:77-90 | Persisting writes down every port the gateway holds and nothing of any other |
| `Ports.UnpersistedPortMovesOn` | internal/lib/k8s/gatewayapi/engine.go:412-426 | A port handed out but not yet persisted can go to another gateway in the next sync: generations are published before the annotation is written |
| `Ports.PortAllocator.constructor` | internal/lib/k8s/gatewayapi/ports.go:24-51 | Reads every readable port map of the listed Services |
| `Ports.PortAllocator.Allocate` | internal/lib/k8s/gatewayapi/ports.go:54-74 | The held port of the group, or the first free one of the range with 32-bit conversion, or none |
| `Ports.PortAllocator.PortMapOf` | internal/lib/k8s/gatewayapi/ports.go:77-90 | The gateway's own entries without their prefix |
| `Matching.FindRule` | internal/lib/transports/http/routing/match.go:25-111 | Returns what the lookup may answer, in one pass over the owning listener's rules; a plain request never gets a gRPC rule |
| `Precedence.AnswerIsFirst` | internal/lib/transports/http/routing/match.go:25-111 | The answer is a gRPC rule exactly when the request is gRPC and some gRPC rule may serve it, the first in precedence of its kind, and none exactly when no rule may serve the request |
| `Precedence.WinnerPrecedesAll` | internal/lib/transports/http/routing/match.go:202-220 | The winner is exactly the rule that precedes all others, said without scores: the most specific matching hostname, an applying match no other outranks by path, method, headers and query parameters, the older route, the smaller name, the earlier rule |
| `Precedence.CandidatesAreEligible` | internal/lib/transports/http/routing/match.go:68-87 | The rules that may serve a request: of a route on the owning listener, with a matching hostname if it has any, of the kind wanted, one of whose matches applies |
| `Precedence.OwnerIsMostSpecific` | internal/lib/transports/http/routing/match.go:55-75 | A listener owns a host exactly when its hostname matches and no matching one of the port is more specific |
| `Precedence.ApplyingMatchesRank` | internal/lib/transports/http/routing/match.go:261-303 | Among matches that apply to one request scores follow the unscored precedence without exception |
| `Precedence.PathDemands` | internal/lib/transports/http/routing/match.go:413-428 | A path is demanded exactly or by prefix, the latter also without a type, and nothing else applies |
| `Precedence.PrefixIsSegmentwise` | internal/lib/transports/http/routing/match.go:455-468 | A prefix matches exactly when its segments are the first ones of the path |
| `Precedence.DemandsNarrow` | internal/lib/transports/http/routing/match.go:430-452 | Each method, header and query parameter added to a match narrows it by exactly that demand |
| `Precedence.PatternStandsFor` | internal/lib/transports/http/routing/match.go:383-397 | A wildcard stands for one or more characters before its suffix, a literal name for itself in any letter case |
| `Precedence.GrpcByContentType` | internal/lib/transports/grpc/grpc.go:28-30 | A request is gRPC by what its content type begins with |
| `Matching.WinnerIsUnique` | internal/lib/transports/http/routing/match.go:202-220 | On a well-formed port the winner is unique; ties inside one route go to the earliest rule |
| `Matching.PodsAgree` | internal/lib/transports/http/routing/match.go:25-111 | The answer is the same for every permutation of the routes |
| `Matching.BeatsIsTotal` | internal/lib/transports/http/routing/match.go:202-220 | The precedence is a total order on scores |
| `Matching.BeatsIsTransitive` | internal/lib/transports/http/routing/match.go:202-220 | and transitive |
| `Matching.RuleBestMatch` | internal/lib/transports/http/routing/match.go:261-290 | The best applying match of a rule under the per-match precedence |
| `Matching.RouteHostnameScore` | internal/lib/transports/http/routing/match.go:240-257 | The best score among the matching hostnames of a route, or the listener's |
| `Matching.PathScoreRanks` | internal/lib/transports/http/routing/match.go:292-303 | Numeric path scores follow the Gateway API path precedence if and only if no prefix is longer than the offset given to Exact paths allows |
| `Matching.OwnerIsUnique` | internal/lib/transports/http/routing/match.go:55-75 | At most one listener of a well-formed port owns a host |
| `Hostnames.IntersectionIsReachability` | internal/lib/k8s/gatewayapi/compile.go:1701-1727 | The control plane's intersection test is true exactly when some authority satisfies both data-plane tests, but for an empty route hostname |
| `Hostnames.MixedCaseBreaksCompleteness` | internal/lib/transports/http/routing/match.go:383-397 | The lower-case premise is needed: suffixes are compared without case folding |
| `Hostnames.ScoreRanksBySpecificity` | internal/lib/transports/http/routing/match.go:224-235 | Numeric hostname scores follow exact over wildcard over none if and only if no wildcard reaches past the offset |
| `Hostnames.MatchingScoreDeterminesPattern` | internal/lib/transports/http/routing/match.go:224-235 | Two patterns of one score that match one host are the same pattern |
| `Ownership.RejectConflicting` | internal/lib/k8s/gatewayapi/compile.go:226-269 | In place, each listener is accepted exactly as the survivors of higher precedence allow |
| `Ownership.AcceptedNeverClash` | internal/lib/k8s/gatewayapi/compile.go:226-269 | Of two listeners on one port with different protocols or equal hostnames at most the earlier stays accepted |
| `Ownership.RejectionHasCause` | internal/lib/k8s/gatewayapi/compile.go:226-269 | A listener is rejected exactly when an earlier survivor has its port with another protocol or with its hostname, for the protocol if there is such a one, and nothing else about it changes |
| `Ownership.BestListenerFor` | internal/lib/transports/http/routing/match.go:326-341 | Finds a most specific matching listener, if any matches |
| `Ownership.MatchStaysWithOwner` | internal/lib/transports/http/routing/match.go:55-111 | Match only returns rules of the host's owner |
| `Ownership.OtherListenersAreIrrelevant` | internal/lib/transports/http/routing/match.go:55-111 | Routes on less specific listeners never affect the result |
| `Ownership.Misdirected` | internal/lib/transports/http/routing/match.go:309-321 | The two owner lookups and their comparison |
| `Ownership.MisdirectionIsExact` | internal/lib/transports/http/routing/match.go:309-321 | On a well-formed port the check fires exactly when some listener owns the SNI and does not own the authority |
| `Ownership.OwnAuthorityIsNotMisdirected` | internal/lib/transports/http/routing/match.go:309-321 | So an authority the SNI's listener owns is never misdirected, the SNI itself least of all |
| `Ownership.UnmisdirectedStaysOnListener` | internal/lib/transports/http/routing/match.go:309-321 | A request that is not misdirected is served by its SNI's listener if and only if some listener of the port has the SNI |
| `Ownership.UnknownNameIsNotMisdirected` | internal/lib/transports/http/routing/match.go:309-368 | With an SNI no listener has, the handshake gets the first listener's certificate and client policy and another listener's authority passes the check |
| `Ownership.CertificateFor` | internal/lib/transports/http/routing/match.go:346-368 | The loop with its fallback |
| `Ownership.CertificateIsExact` | internal/lib/transports/http/routing/match.go:346-368 | A listener's certificate is served exactly when it is the first with one that has the server name, or the first with one when none has |
| `Ownership.CertificateAgreementIsExact` | internal/lib/transports/http/routing/match.go:346-381 | Certificate choice agrees with listener ownership for every server name, up to any length that covers the port's hostnames and its number of listeners, if and only if no shorter wildcard stands before a longer one nested in it |
| `Balancing.WeightsAreExact` | internal/lib/transports/http/routing/match.go:667-681 | Any window of as many consecutive tickets as the total weight picks each backend exactly its weight many times |
| `Balancing.EveryTicketPicks` | internal/lib/transports/http/routing/match.go:473-475 | and never none |
| `Balancing.EndpointsAreExact` | internal/lib/transports/http/routing/match.go:685-692 | With L endpoints, total times L sequential requests send each endpoint of a backend exactly its weight many requests |
| `Balancing.PickBucket` | internal/lib/transports/http/routing/match.go:667-681 | The walk over weights picks the backend whose interval holds the ticket |
| `Balancing.BuildBackends` | internal/lib/transports/http/routing/build.go:236-248 | The loop over configured backends with its running total |
| `Balancing.KeptArePositive` | internal/lib/transports/http/routing/build.go:236-248 | What is kept is exactly the backends of positive weight, in their order |
| `Balancing.RuleTable.PickBackend` | internal/lib/transports/http/routing/match.go:473-475 | One draw advances the counter by one |
| `Balancing.BackendTable.Pick` | internal/lib/transports/http/routing/match.go:685-692 | One draw over the endpoints, none when there are none |
| `RateLimiting.RateBoundIsExact` | internal/extensions/ratelimiting/limiter.go:75-120 | For every key, run and interval of length T at most burst + requests*T/window calls are allowed, if and only if an idle bucket is full again by the time a sweep may drop it |
| `RateLimiting.SweepInvisibilityIsExact` | internal/extensions/ratelimiting/limiter.go:110-120 | The swept limiter answers every run as an unswept one under exactly the same condition |
| `RateLimiting.SweepConditionReads` | internal/extensions/ratelimiting/limiter.go:112-120 | That condition is burst*window <= requests*(2*window+1); burst <= 2*requests implies it |
| `RateLimiting.AnswersDependOnOwnCallsOnly` | internal/extensions/ratelimiting/limiter.go:75-108 | Each key's answers depend only on that key's own calls |
| `RateLimiting.ClockOrderIsNeeded` | internal/extensions/ratelimiting/limiter.go:76-79 | Clock readings out of lock order break the bound |
| `RateLimiting.BackwardClockBound` | internal/extensions/ratelimiting/limiter.go:75-108 | With readings in any order, the calls allowed on a key over any stretch of a run exceed the bound by at most the refill of the clock's backward movements in it |
| `RateLimiting.WaitIsTight` | internal/extensions/ratelimiting/limiter.go:92-107 | After a refusal with wait w and no allowed call since, every call before t+w is refused and every call after it allowed, whatever refused polls and sweeps come between |
| `RateLimiting.RetryIsExact` | internal/extensions/ratelimiting/limiter.go:92-107 | A later call is allowed exactly when the missing tokens have arrived |
| `RateLimiting.RetryAfterIsHonoured` | internal/lib/transports/http/proxy/extensions.go:68-83 | A client that returns exactly when Retry-After says is refused if and only if the truncated wait is a whole number of seconds and truncation lost a fraction |
| `RateLimiting.RetryAfterCanFail` | internal/lib/transports/http/proxy/extensions.go:68-83 | Such a refusal: 7 requests per 10 seconds, burst one, calls at 0, 0.428571428 and 1.428571428 seconds |
| `RateLimiting.Limiter.Allow` | internal/extensions/ratelimiting/limiter.go:75-108 | Refill, sweep counter, spend or refuse with the wait, as the reference step says |
| `RateLimiting.Limiter.Sweep` | internal/extensions/ratelimiting/limiter.go:112-120 | Drops exactly the buckets idle for more than two windows |
| `Sessions.LastSessionIsRead` | internal/extensions/auth/session.go:172-226 | Over any sequence of seals, failed oversize seals and clears, from any browser state, the session read back is the last one sealed while unexpired, and none after a clear |
| `Sessions.CookiesAreOneRun` | internal/extensions/auth/session.go:183-193 | The session cookies are always either none or the chunks, from the first on, of one sealed value of the expected session, with one expiry |
| `Sessions.ChunksJoin` | internal/extensions/auth/session.go:332-340 | Cutting loses nothing |
| `Sessions.ChunksFitBudget` | internal/extensions/auth/session.go:178-181 | The size test admits exactly the values that fit four chunks |
| `Sessions.Browser.SealSession` | internal/extensions/auth/session.go:172-196 | Sets the chunks and drops stale higher ones, or sets nothing when the value is too large |
| `Sessions.Browser.OpenSession` | internal/extensions/auth/session.go:201-226 | Joins the chunks up to the first gap, opens them and checks expiry |
| `Sessions.Browser.ClearSession` | internal/extensions/auth/session.go:230-238 | Leaves no chunk behind |
| `Sessions.Chunk` | internal/extensions/auth/session.go:332-340 | The cutting loop |
| `ProxyProtocol.Version1RoundTrip` | internal/lib/transports/proxyproto/proxyproto.go:97-144 | Reading an encoded version 1 preamble yields its source and leaves exactly the following bytes, for every address but IPv4-mapped ones, which are refused |
| `ProxyProtocol.Version2RoundTrip` | internal/lib/transports/proxyproto/proxyproto.go:149-203 | The same for version 2, whatever type-length-value entries follow |
| `ProxyProtocol.SuccessConsumesOnePreamble` | internal/lib/transports/proxyproto/proxyproto.go:79-203 | Any successful read consumes exactly one line of at most 107 bytes, or 16 bytes plus the declared length |
| `ProxyProtocol.Version1IsExact` | internal/lib/transports/proxyproto/proxyproto.go:97-144 | A line gives a client exactly when it has at most 107 bytes and six fields that name it, none exactly when its second field says UNKNOWN, and is refused otherwise |
| `ProxyProtocol.UnknownNamesNobody` | internal/lib/transports/proxyproto/proxyproto.go:107-112 | Every line that says UNKNOWN names no client, whatever follows on it |
| `ProxyProtocol.Version2IsSound` | internal/lib/transports/proxyproto/proxyproto.go:149-203 | A client read from a version 2 preamble is one that was encoded: the bytes consumed encode exactly that client |
| `ProxyProtocol.LocalNamesNobody` | internal/lib/transports/proxyproto/proxyproto.go:163-188 | A LOCAL preamble of any family, and one of the unspecified family, names no client, whatever block it declares |
| `ProxyProtocol.UnsupportedIsRefused` | internal/lib/transports/proxyproto/proxyproto.go:163-196 | Any other command or family, and a block too short for its family, is refused with the block consumed |
| `ProxyProtocol.TruncatedIsRefused` | internal/lib/transports/proxyproto/proxyproto.go:150-162 | A stream that ends inside the header or the declared block is refused |
| `ProxyProtocol.NoPreambleIsLeft` | internal/lib/transports/proxyproto/proxyproto.go:79-93 | There is no preamble exactly when the stream is too short or begins with neither form, and then nothing is consumed |
| `ProxyProtocol.MappedStandsForIpv4` | internal/lib/transports/proxyproto/proxyproto.go:129-132 | The refused IPv4-mapped addresses are exactly those of the form ::ffff:a.b.c.d |
| `ProxyProtocol.Read` | internal/lib/transports/proxyproto/proxyproto.go:79-94 | Detection by signature or prefix without consuming anything otherwise |
| `ProxyProtocol.ReadV1` | internal/lib/transports/proxyproto/proxyproto.go:97-144 | The text form with all its refusals |
| `ProxyProtocol.ReadV2` | internal/lib/transports/proxyproto/proxyproto.go:149-203 | The binary form with all its refusals |

## Left out

- Kubernetes client calls, retries and informers: the API store is a map with create, get, update, delete and list steps.
- Which listeners admit a route, reference grants, parameters, and the matches, filters, timeouts and backends of rules: inputs of `Validating` and `Attaching`.
- Merging authentication documents, and what their validation checks beyond the parts hydration can fail on: inputs of `Attaching`.
- The web application firewall engine, timeouts, filters, mirrors, CORS and backend TLS transports inside the built tables.
- Adoption of the previous table's transports and of round-robin counters across table swaps.
- TCP, TLS and UDP forwarding, endpoint discovery, sockets, deadlines, metrics and logs.
- Outside edits that write a readable manifest or change labels: nothing in the code can tell them from its own.
- Frontend Services, EndpointSlices and status conditions, except the persisted port map and the decision that a gateway is programmed.
- The dashboard, templates, parameter documents and their merging, login flows, and the state cookie of login flows.
- IPv6 zones in version 1 preambles, and whitespace beyond ASCII.
- Overlapping requests of one browser: session cookies are modelled for requests one after another.
- Overflow of 64-bit ticket counters and floating-point rounding in the limiter.
