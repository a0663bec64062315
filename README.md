# Handier Maven Deploy: a model of the deploy goal

This project models the `deploy` goal of the Handier Maven Deploy plugin
(`DeployMojo`). The goal collects a set of artifacts: the project's own
artifact and, when asked, its dependencies. It picks a deployment repository:
an `id::layout::url` override, or else the project's distribution repository.
For every artifact it then makes a fixed sequence of transfers:

1. the primary one: the POM for a `pom` project, else the artifact's own file,
   else the POM under a separate POM artifact;
2. every attached artifact, in list order;
3. when `filterPom` is on, the artifact's POM flattened with all its ancestors.

The first failure stops the whole run.

The model is split into these files:

- `Wrappers.dfy`: `Option`, `Result` and `Outcome` (a void call that returns
  or throws).
- `Repositories.dfy`: `getDeploymentRepository`, a pure function. The
  override pattern `(.+)::(.+)::(.+)` is stated as "three non-empty parts joined
  by `::`, with no line terminator". The split Java's greedy matcher picks is
  proved to be found and to be the greediest one.
- `RepositoryExamples.dfy`: worked override strings.
- `Pom.dfy`: `filterPom` once the project and its ancestors are built. The
  stack of models is pushed leaf first and popped root first, each popped model
  having the previous one overlaid in place. The build- and site-only sections
  are nulled and the test-scoped dependencies dropped. A Maven `Model` is a
  class whose setters change it in place.
- `Deploy.dfy`: the artifacts (a class: version, release flag and metadata list
  change in place), the deployer (a class whose published list is the trace of
  transfers), the `HashSet` that `execute` builds, and the goal itself (class
  `DeployMojo`, whose `pomFile` field is reassigned).
  - Every method states its outcome and the new trace, in terms of a plan
    (`PlanEntry`, `RanPlan`, `Deployed`, `ExecutedAll`, `Ran`). The plan says
    which transfers an artifact gets and in which order.
  - The trace is old trace ++ the transfers made, so nothing else is published.
  - What a run does to the artifacts themselves is stated too: `ArtifactUpdated`
    for one artifact, `RunUpdated` for the loop. The artifacts deployed change
    their metadata, release flag and version; the others keep them.

The Maven components the goal calls are parameters of the model (`Components`,
`Deployer`, `Settings`):

- resolving a POM, building a project with its ancestors, and overlaying a
  parent model;
- the deploy primitive, which accepts or refuses a transfer and gives the
  version the repository assigns;
- the offline check and the set of known layout names.

Line numbers below are in `src/main/java/org/apache/maven/plugin/deploy/DeployMojo.java`.

The code and its description differ in one place, and the model follows the
code. The model of the bare project is the one the merge overlays in place
(lines 363-369). So the dependency list that line 393 filters is the merged
list, not the one read from the project's own POM. `Pom.Flattened` keeps the
merged list's non-test dependencies. `Pom.FlattenedOrphan` shows the two agree
when there are no ancestors.

## Model

| member | source | states |
|---|---|---|
| `Repositories.MatchAltSyntax` | src/main/java/org/apache/maven/plugin/deploy/DeployMojo.java:66 | a successful match splits the override into three non-empty groups joined by `::`, with no line terminator anywhere |
| `Repositories.MatchAltSyntaxComplete` | src/main/java/org/apache/maven/plugin/deploy/DeployMojo.java:66 | every string that has such a split matches, and the groups returned are at least as greedy (longest id, then longest layout) as any split |
| `Repositories.MatchAltSyntaxIff` | src/main/java/org/apache/maven/plugin/deploy/DeployMojo.java:288-290 | the override matches exactly when it can be written p1::p2::p3 with non-empty parts on one line |
| `Repositories.MatchIsGreediestSplit` | src/main/java/org/apache/maven/plugin/deploy/DeployMojo.java:66 | the groups returned are the unique greediest split |
| `Repositories.UnambiguousSplit` | src/main/java/org/apache/maven/plugin/deploy/DeployMojo.java:66 | when layout and url contain no `::` and do not start with `:`, p1::p2::p3 is the greediest split whatever p1 holds |
| `Repositories.Trim` | src/main/java/org/apache/maven/plugin/deploy/DeployMojo.java:294-296 | `String.trim`: the result is the middle of the string, every character cut off at either end is at most U+0020, and neither end of the result is |
| `Repositories.TrimBlank` | src/main/java/org/apache/maven/plugin/deploy/DeployMojo.java:294-296 | a group of whitespace only is trimmed to the empty string, not rejected |
| `Repositories.TrimUntouched` | src/main/java/org/apache/maven/plugin/deploy/DeployMojo.java:294-296 | a group without whitespace at either end is kept as it is |
| `Repositories.DeploymentRepository` | src/main/java/org/apache/maven/plugin/deploy/DeployMojo.java:281-316 | no override: the distribution repository, or `NotSpecified` without one. With an override: a trimmed split whose layout is known; the syntax error exactly when the override has no split; or, for an override that has one, an unknown layout name. The lemmas below say which split and which layout |
| `Repositories.AltRepositoryOverrides` | src/main/java/org/apache/maven/plugin/deploy/DeployMojo.java:285-302 | an override with greediest split p1::p2::p3 and a known layout gives trim(p1)/trim(p2)/trim(p3), whatever the distribution repository is |
| `Repositories.AltRepositoryRejected` | src/main/java/org/apache/maven/plugin/deploy/DeployMojo.java:288-292 | an override with no split fails with the "Use id::layout::url" hint |
| `Repositories.AltRepositoryUnknownLayout` | src/main/java/org/apache/maven/plugin/deploy/DeployMojo.java:294-300 | an override with greediest split p1::p2::p3 whose trimmed layout is not known fails with `UnknownLayout(trim(p2))`, whatever the distribution repository is |
| `RepositoryExamples.ExtraSeparatorsGoToId` | src/main/java/org/apache/maven/plugin/deploy/DeployMojo.java:66 | `a::b::c::d` matches with id `a::b`, layout `c`, url `d` |
| `RepositoryExamples.SingleSeparatorRejected` | src/main/java/org/apache/maven/plugin/deploy/DeployMojo.java:288-292 | `internal::https://repo.example.com` is rejected as invalid syntax |
| `RepositoryExamples.WellFormedSplit` | src/main/java/org/apache/maven/plugin/deploy/DeployMojo.java:66 | `ci::default::http://h/r` splits greediest into `ci`, `default`, `http://h/r` |
| `RepositoryExamples.WellFormedOverride` | src/main/java/org/apache/maven/plugin/deploy/DeployMojo.java:285-302 | that override yields repository ci/default/http://h/r whatever the distribution repository |
| `Pom.NonTestIsFiltered` | src/main/java/org/apache/maven/plugin/deploy/DeployMojo.java:392-408 | the test-scope filter equals an independent front-to-back definition |
| `Pom.NonTestMembership` | src/main/java/org/apache/maven/plugin/deploy/DeployMojo.java:404-405 | a dependency is kept exactly when it was listed and its scope is not exactly `test` (no scope is kept) |
| `Pom.NonTestKeepsAll` | src/main/java/org/apache/maven/plugin/deploy/DeployMojo.java:392-408 | a list with no test-scoped entry passes unchanged |
| `Pom.NonTestIdempotent` | src/main/java/org/apache/maven/plugin/deploy/DeployMojo.java:392-408 | filtering twice gives what filtering once gives |
| `Pom.NonTestExample` | src/main/java/org/apache/maven/plugin/deploy/DeployMojo.java:392-408 | `[a:compile, b:test, c:<none>]` becomes `[a, c]` |
| `Pom.InheritedIsMergePops` | src/main/java/org/apache/maven/plugin/deploy/DeployMojo.java:362-369 | each merged model is the left fold of `assemble(child, acc)` from the root down to it, in pop order |
| `Pom.ThreeLevels` | src/main/java/org/apache/maven/plugin/deploy/DeployMojo.java:362-369 | project, parent, root merge as assemble(project, assemble(parent, root)) |
| `Pom.NulledSections` | src/main/java/org/apache/maven/plugin/deploy/DeployMojo.java:373-389 | the nulled sections are exactly the named ones; every other section is kept |
| `Pom.NullingOrder` | src/main/java/org/apache/maven/plugin/deploy/DeployMojo.java:373-411 | the setter calls in code order, with the repeated `ciManagement`, null exactly the 18 listed sections |
| `Pom.FlattenedContent` | src/main/java/org/apache/maven/plugin/deploy/DeployMojo.java:371-411 | a flattened POM has no nulled section, every kept section of the merged model unchanged, and exactly its non-test dependencies |
| `Pom.FlattenedOrphan` | src/main/java/org/apache/maven/plugin/deploy/DeployMojo.java:391-408 | without ancestors the dependencies are the project's own, less the test-scoped ones |
| `Pom.FlattenIdempotent` | src/main/java/org/apache/maven/plugin/deploy/DeployMojo.java:371-411 | flattening a flattened POM, which has no parent, changes nothing |
| `Pom.Model.Clear` | src/main/java/org/apache/maven/plugin/deploy/DeployMojo.java:373-389 | a setter called with null removes that section and nothing else |
| `Pom.Model.SetDependencies` | src/main/java/org/apache/maven/plugin/deploy/DeployMojo.java:408 | the dependency list is replaced, the sections are kept |
| `Pom.Model.Inherit` | src/main/java/org/apache/maven/plugin/deploy/DeployMojo.java:367 | the child model becomes assemble(child, parent) in place |
| `Pom.PushHierarchy` | src/main/java/org/apache/maven/plugin/deploy/DeployMojo.java:329-360 | the stack holds distinct fresh models: the bare project first, then each ancestor nearest first, root on top |
| `Pom.MergeHierarchy` | src/main/java/org/apache/maven/plugin/deploy/DeployMojo.java:362-371 | every model on the stack ends up merged with all its ancestors, and the bare project's model is returned |
| `Pom.KeptDependencies` | src/main/java/org/apache/maven/plugin/deploy/DeployMojo.java:392-408 | the loop keeps exactly the non-test dependencies, in order |
| `Pom.Strip` | src/main/java/org/apache/maven/plugin/deploy/DeployMojo.java:373-411 | after sanitation the model has no nulled section and its non-test dependencies |
| `Pom.FlattenPom` | src/main/java/org/apache/maven/plugin/deploy/DeployMojo.java:320-412 | walk, merge and sanitation give exactly the flattened POM of the hierarchy |
| `Deploy.Artifact.AddMetadata` | src/main/java/org/apache/maven/plugin/deploy/DeployMojo.java:229-230 | the metadata list grows by the given entry |
| `Deploy.Artifact.SetRelease` | src/main/java/org/apache/maven/plugin/deploy/DeployMojo.java:233-235 | the release flag is set |
| `Deploy.Artifact.SetResolvedVersion` | src/main/java/org/apache/maven/plugin/deploy/DeployMojo.java:259 | the version is replaced |
| `Deploy.Deployer.Deploy` | src/main/java/org/apache/maven/plugin/deploy/DeployMojo.java:237-277 | a transfer either is accepted, is appended to the trace and gives the artifact the assigned version, or is refused and changes nothing |
| `Deploy.Add` | src/main/java/org/apache/maven/plugin/deploy/DeployMojo.java:180 | `HashSet.add`: the artifact is added exactly when no equal one is present; afterwards an equal one is; no two equal elements |
| `Deploy.AddAll` | src/main/java/org/apache/maven/plugin/deploy/DeployMojo.java:178 | `HashSet.addAll`: only elements of the two sets, an equal of every added one, no two equal elements |
| `Deploy.Enumerate` | src/main/java/org/apache/maven/plugin/deploy/DeployMojo.java:206 | iteration visits every element of the set exactly once, in some order |
| `Deploy.DeployAttachments` | src/main/java/org/apache/maven/plugin/deploy/DeployMojo.java:266-270 | the attached artifacts are sent in list order, each with its own file and current coordinates. The trace grows by exactly the sent ones. The loop stops at the first refusal and names it. Only the sent ones get new versions; no metadata or release flag changes |
| `Deploy.DeployMojo.FilterPom` | src/main/java/org/apache/maven/plugin/deploy/DeployMojo.java:318-431 | fails when the project cannot be built, and otherwise gives the flattened POM of its hierarchy |
| `Deploy.DeployMojo.PreparePom` | src/main/java/org/apache/maven/plugin/deploy/DeployMojo.java:211-235 | unresolved POM or failed early flattening: nothing changes. Otherwise `pomFile` is the resolved POM (the early result is overwritten), metadata is attached unless the packaging is `pom`, and the release flag is set when asked |
| `Deploy.DeployMojo.DeployPrimary` | src/main/java/org/apache/maven/plugin/deploy/DeployMojo.java:237-263 | three-way decision: POM for `pom` packaging, the artifact's file, or the POM under a fresh POM artifact with the base version (release flag as asked), whose version then becomes the artifact's. With no file and no attachments, the "did not assign a file" failure |
| `Deploy.DeployMojo.PrimaryFirst` | src/main/java/org/apache/maven/plugin/deploy/DeployMojo.java:237-264 | once the POM is known the plan has 1 + attachments (+ 1 when flattening) entries and the primary transfer is the first |
| `Deploy.DeployMojo.PrimaryAndAttachments` | src/main/java/org/apache/maven/plugin/deploy/DeployMojo.java:237-270 | the primary transfer followed by the first attached ones is a prefix of the plan |
| `Deploy.DeployMojo.PrimaryRefused` | src/main/java/org/apache/maven/plugin/deploy/DeployMojo.java:237-263 | a refused or impossible primary transfer ends the artifact with nothing sent |
| `Deploy.DeployMojo.PrimaryAccepted` | src/main/java/org/apache/maven/plugin/deploy/DeployMojo.java:237-270 | after the primary transfer, the attachment loop's outcome is the outcome of the plan's main part |
| `Deploy.DeployMojo.MainIsWhole` | src/main/java/org/apache/maven/plugin/deploy/DeployMojo.java:271-274 | without flattening, or after a failure, nothing follows the attached artifacts |
| `Deploy.DeployMojo.WithFlattened` | src/main/java/org/apache/maven/plugin/deploy/DeployMojo.java:271-274 | the flattened POM is the last planned transfer; sending it completes the plan, refusing it names it |
| `Deploy.DeployMojo.DeployFlattened` | src/main/java/org/apache/maven/plugin/deploy/DeployMojo.java:271-273 | `pomFile` becomes the flattened POM, which is sent under a POM artifact with the POM's coordinates; the trace grows by it exactly when accepted |
| `Deploy.DeployMojo.DeployRest` | src/main/java/org/apache/maven/plugin/deploy/DeployMojo.java:266-270 | after primary transfer d, the attached transfers carry the plan through its main part or stop at the named refusal |
| `Deploy.DeployMojo.DeployMain` | src/main/java/org/apache/maven/plugin/deploy/DeployMojo.java:237-270 | the trace grows by a prefix of the plan's main part, the outcome says how far it got, and the artifact's version is the one the primary transfer assigned |
| `Deploy.DeployMojo.Transfer` | src/main/java/org/apache/maven/plugin/deploy/DeployMojo.java:237-277 | the trace grows by a prefix of the whole plan, flattened POM last; `pomFile` is the flattened POM exactly when it was reached |
| `Deploy.DeployMojo.DeployArtifact` | src/main/java/org/apache/maven/plugin/deploy/DeployMojo.java:207-277 | one artifact: the trace grows by what `Deployed` says (POM not resolved, not built, no primary file, a refusal, or the whole plan), with metadata, release flag, version and `pomFile` as the code sets them |
| `Deploy.DeployMojo.ArtifactSet` | src/main/java/org/apache/maven/plugin/deploy/DeployMojo.java:176-180 | only the project artifact and dependencies. Without `deployDependencies`, exactly the project artifact. With it, an equal of every dependency. Always an equal of the project artifact, and the project artifact itself unless an equal dependency came first |
| `Deploy.DeployMojo.DeployedOneMore` | src/main/java/org/apache/maven/plugin/deploy/DeployMojo.java:206-278 | one more artifact deployed either keeps every artifact so far complete or ends the loop with its failure |
| `Deploy.DeployMojo.DeployNext` | src/main/java/org/apache/maven/plugin/deploy/DeployMojo.java:206-278 | one loop round appends that artifact's block to the trace and extends the loop's record; the artifact's coordinates are those it had on entry, and its metadata, release flag and version change as `ArtifactUpdated` says (POM metadata unless the packaging is `pom`, release when asked, the version assigned to its first transfer) |
| `Deploy.DeployMojo.DeployRound` | src/main/java/org/apache/maven/plugin/deploy/DeployMojo.java:206-278 | round i of the loop: the trace grows by the artifact's block, the i-th artifact changes as `ArtifactUpdated` says and no other artifact of the set changes; a pass keeps the loop's record, a failure ends it |
| `Deploy.DeployMojo.ProgressStep` | src/main/java/org/apache/maven/plugin/deploy/DeployMojo.java:206-278 | a round that changed only the i-th artifact, as `ArtifactUpdated` says, extends the record of changed artifacts by one |
| `Deploy.DeployMojo.DeployedAll` | src/main/java/org/apache/maven/plugin/deploy/DeployMojo.java:206-278 | a loop that met no failure deployed every artifact of the set completely, and every artifact changed as `ArtifactUpdated` says |
| `Deploy.DeployMojo.DeployEach` | src/main/java/org/apache/maven/plugin/deploy/DeployMojo.java:206-278 | each artifact of the set once, in iteration order, each with its whole plan before the next. The trace is their blocks end to end. The first failure ends the run. The artifacts visited changed their metadata, release flag and version as `ArtifactUpdated` says; those not reached are unchanged |
| `Deploy.DeployMojo.ExecuteWithArtifacts` | src/main/java/org/apache/maven/plugin/deploy/DeployMojo.java:185-279 | skip: success and an empty trace, before the offline and repository checks. Offline, or no repository: that failure with an empty trace, and no artifact changes. Otherwise the loop over the set against the chosen repository, artifacts changing as `DeployEach` says |
| `Deploy.DeployMojo.Execute` | src/main/java/org/apache/maven/plugin/deploy/DeployMojo.java:174-183 | the set built from the project artifact (and dependencies when asked) is deployed as `ExecuteWithArtifacts` says: trace, outcome, and every artifact's metadata, release flag and version |

## Left out

- `FindAndDeployMojo.java` is not part of this model. Its transitive resolution only produces a set for `executeWithArtifacts`, and `ExecuteWithArtifacts` takes any set.
- Logging, and creating `~/.ssh` for `scp` repositories (lines 196-204): side effects on the file system with no effect on the trace.
- Writing the flattened POM to a temporary XML file (lines 413-427): the flattened content is the file (`FlattenedPom`). A project that cannot be built with its ancestors fails the first flattening (line 221) with `PomNotBuilt`; the write's I/O error (lines 424 and 428-429) is not modelled.
- `failIfOffline` and `getLayout` live in a base class that is not part of this model. They appear as the `offline` flag and as the set of known layout names, and their messages are not modelled.
- The resolver, the project builder, the inheritance assembler and the factories are foreign Maven code. They are function parameters: a POM either resolves to a file or does not; a project is built with its finite chain of ancestors or not at all; the overlay is an uninterpreted function of child and parent content.
- The ancestor walk when a parent cannot be resolved (lines 355-359): the loop retries the same parent forever. The model takes the chain of ancestors as built, and claims nothing about that case.
- The regular-expression engine: only this pattern's matching is modelled, as the greediest split.
- Message texts other than the two the goal writes itself, and the repository syntax hint. The unknown-layout text comes from `getLayout`, which is not part of this model.
- `Deploy.DeployMojo.DeployFlattened`: the second flattening (line 272) is taken to succeed once the first one (line 221) did. Both build the same project with the same components, and the write's I/O failure is not modelled.
- `Deploy.DeployMojo.DeployArtifact`: the attached artifacts keep their own versions. Line 259 copies the POM's assigned version into the main artifact "for the attached artifacts to pick it up", but that link is in Maven's artifact code, which is not part of this model. The model records the main artifact's new version and nothing more.
- `Deploy.DeployMojo.DeployEach`: states the coordinates of an attached transfer except its version. The version is whatever an earlier round's transfers assigned. It also does not state the attached artifacts' fields after the loop, nor the last value of `pomFile`.
- `Deploy.DeployMojo.Execute`: does not restate which dependencies are in the set. `ArtifactSet` states that, before the deploys change the versions that equality looks at.
- `Deploy.Artifact.constructor`: an artifact's file is fixed at creation. The code never sets the file of an artifact it did not create.
- The POM artifact under which the flattened POM is sent is created just before that transfer, not at line 211. Nothing else observes it, and its coordinates are those computed at line 211.
- The methods require what Maven guarantees about identity: the attached artifacts are distinct and are neither the project artifact nor a dependency. Without that the aliasing of artifact objects would be unconstrained.
- Iteration order of the `HashSet` is left open. Any order may be chosen, so what is proved holds for every order.
- Integers are unbounded. No counter in the code can overflow.
