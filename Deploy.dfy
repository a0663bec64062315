/**
 * The deploy goal: the set of artifacts to deploy, and for each of them the
 * sequence of transfers to the deployment repository (primary file or POM,
 * the attached artifacts, and the flattened POM). Line numbers in the
 * comments refer to src/main/java/org/apache/maven/plugin/deploy/DeployMojo.java.
 */
module Deploy {
  import opened Wrappers
  import opened Repositories
  import opened Pom

  /** A file handed to the deployer: one on disk, or the temporary POM that flattening writes. */
  datatype File = LocalFile(path: string, isRegular: bool) | FlattenedPom(content: Content)

  /** `file != null && file.isFile()`. */
  predicate IsFile(f: Option<File>) {
    f.Some? && (f.value.FlattenedPom? || f.value.isRegular)
  }

  /**
   * What `DefaultArtifact.equals` compares: group, artifact, version, type
   * and classifier (no classifier is null).
   */
  datatype Coordinate = Coordinate(groupId: string, artifactId: string, version: string,
                                   kind: string, classifier: Option<string>)

  /** The coordinates of the POM that describes an artifact: same group, artifact and version, type `pom`. */
  function PomCoordinate(c: Coordinate): (p: Coordinate) {
    Coordinate(c.groupId, c.artifactId, c.version, "pom", None)
  }

  /** `ProjectArtifactMetadata`: the POM that travels with an artifact. */
  datatype Metadata = ProjectMetadata(pom: File)

  /**
   * A Maven artifact. Its coordinates other than the version are fixed, and
   * so is its file (it is only ever given when the artifact is created);
   * the version, the release flag and the metadata list change in place.
   */
  class Artifact {
    const groupId: string
    const artifactId: string
    const baseVersion: string
    const kind: string
    const classifier: Option<string>
    const file: Option<File>
    var version: string
    var release: bool
    var metadata: seq<Metadata>

    constructor (groupId: string, artifactId: string, version: string, kind: string,
                 classifier: Option<string>, file: Option<File>)
      ensures this.groupId == groupId && this.artifactId == artifactId && this.kind == kind
      ensures this.classifier == classifier && this.file == file
      ensures this.version == version && this.baseVersion == version
      ensures !release && metadata == []
    {
      this.groupId := groupId;
      this.artifactId := artifactId;
      this.baseVersion := version;
      this.kind := kind;
      this.classifier := classifier;
      this.file := file;
      this.version := version;
      this.release := false;
      this.metadata := [];
    }

    /** The coordinates `equals` and `hashCode` look at, with the current version. */
    function Key(): Coordinate
      reads this`version
    {
      Coordinate(groupId, artifactId, version, kind, classifier)
    }

    /** Coordinates c name this artifact, in whatever version. */
    predicate Names(c: Coordinate) {
      c.groupId == groupId && c.artifactId == artifactId && c.kind == kind && c.classifier == classifier
    }

    method AddMetadata(m: Metadata)
      modifies this`metadata
      ensures metadata == old(metadata) + [m]
    {
      metadata := metadata + [m];
    }

    method SetRelease(r: bool)
      modifies this`release
      ensures release == r
    {
      release := r;
    }

    /** Replaces the version and keeps the base version. */
    method SetResolvedVersion(v: string)
      modifies this`version
      ensures version == v
    {
      version := v;
    }
  }

  /** One transfer: the file sent, the artifact it was sent under and its coordinates then, and the repository. */
  datatype Deployment = Deployment(file: Option<File>, artifact: Artifact, coordinate: Coordinate,
                                   repository: Repository)

  /**
   * The deployer, seen from the goal: a transfer either succeeds, and is
   * published and may give the artifact the version the repository assigns
   * (a timestamped snapshot), or it throws and nothing is published.
   */
  class Deployer {
    var published: seq<Deployment>
    const accepts: (Option<File>, Coordinate, Repository) -> bool
    const assignedVersion: (Coordinate, Repository) -> string

    constructor (accepts: (Option<File>, Coordinate, Repository) -> bool,
                 assignedVersion: (Coordinate, Repository) -> string)
      ensures published == [] && this.accepts == accepts && this.assignedVersion == assignedVersion
    {
      published := [];
      this.accepts := accepts;
      this.assignedVersion := assignedVersion;
    }

    method Deploy(file: Option<File>, a: Artifact, repo: Repository) returns (ok: bool)
      modifies this`published, a`version
      ensures ok == accepts(file, old(a.Key()), repo)
      ensures ok ==> published == old(published) + [Deployment(file, a, old(a.Key()), repo)]
      ensures ok ==> a.version == assignedVersion(old(a.Key()), repo)
      ensures !ok ==> published == old(published) && a.version == old(a.version)
    {
      var c := a.Key();
      ok := accepts(file, c, repo);
      if ok {
        published := published + [Deployment(file, a, c, repo)];
        a.version := assignedVersion(c, repo);
      }
    }
  }

  /** Why the goal stops. */
  datatype DeployError =
    | Offline
    | Misconfigured(cause: RepositoryError)
    | PomNotResolved(pom: Coordinate)
    | PomNotBuilt(pom: Coordinate)
    | NoPrimaryFile
    | DeploymentFailed(deployment: Deployment)
  {
    function Message(): string {
      match this
      case NoPrimaryFile => NoPrimaryFileMessage
      case Misconfigured(cause) => cause.Message()
      case _ => ""
    }
  }

  const NoPrimaryFileMessage := "The packaging for this project did not assign a file to the build artifact"

  /** Which primary transfer the goal makes for an artifact. */
  datatype Primary = PomPackaging | MainFile | PomInstead | NoMainFile

  /**
   * The primary decision: a `pom` project deploys its POM; otherwise the
   * artifact's own file if it has one; otherwise, when there are attached
   * artifacts, the POM under a fresh project artifact; otherwise nothing.
   */
  function PrimaryChoice(packaging: string, file: Option<File>, attachedCount: nat): Primary
  {
    if packaging == "pom" then PomPackaging
    else if IsFile(file) then MainFile
    else if attachedCount > 0 then PomInstead
    else NoMainFile
  }

  /** The project as the goal sees it. */
  datatype Project = Project(artifact: Artifact, artifacts: set<Artifact>,
                             distributionRepository: Option<Repository>,
                             packaging: string, attached: seq<Artifact>)

  /** The goal's parameters, and the outcome of the offline check and of the layout lookup. */
  datatype Settings = Settings(deployDependencies: bool, filterPom: bool, skip: bool,
                               updateReleaseInfo: bool, offline: bool,
                               altDeploymentRepository: Option<string>, knownLayouts: set<string>)

  /**
   * The Maven components the goal calls: resolving a POM to its file,
   * building a POM together with its ancestors, and overlaying a parent model.
   */
  datatype Components = Components(resolvePom: Coordinate -> Option<File>,
                                   buildHierarchy: Coordinate -> Option<Hierarchy>,
                                   assemble: (Content, Content) -> Content)

  /** No artifact occurs twice in a list. */
  predicate DistinctArtifacts(s: seq<Artifact>) {
    forall i, j :: 0 <= i < j < |s| ==> s[i] != s[j]
  }

  /** `HashSet.contains`: some element equals a. */
  predicate HasEqual(s: set<Artifact>, a: Artifact)
    reads s, a
  {
    exists b :: b in s && b.Key() == a.Key()
  }

  /** No two elements of the set are equal. */
  predicate EqualityDistinct(s: set<Artifact>)
    reads s
  {
    forall x, y :: x in s && y in s && x.Key() == y.Key() ==> x == y
  }

  /** `HashSet.add`: an element equal to one already present is not added. */
  method Add(s: set<Artifact>, a: Artifact) returns (t: set<Artifact>)
    ensures HasEqual(s, a) ==> t == s
    ensures !HasEqual(s, a) ==> t == s + {a}
    ensures HasEqual(t, a)
    ensures EqualityDistinct(s) ==> EqualityDistinct(t)
  {
    if exists b :: b in s && b.Key() == a.Key() {
      t := s;
    } else {
      t := s + {a};
    }
  }

  /** `HashSet.addAll`: every element of u is added in turn, in no particular order. */
  method AddAll(s: set<Artifact>, u: set<Artifact>) returns (t: set<Artifact>)
    ensures s <= t <= s + u
    ensures forall b :: b in u ==> HasEqual(t, b)
    ensures EqualityDistinct(s) ==> EqualityDistinct(t)
  {
    t := s;
    var rest := u;
    while rest != {}
      invariant s <= t <= s + u && rest <= u
      invariant forall b :: b in u && b !in rest ==> HasEqual(t, b)
      invariant EqualityDistinct(s) ==> EqualityDistinct(t)
      decreases |rest|
    {
      var x :| x in rest;
      t := Add(t, x);
      rest := rest - {x};
    }
  }

  /** The files the attached artifacts are deployed with, in list order. */
  function AttachmentDeployments(attached: seq<Artifact>, coordinates: seq<Coordinate>, repo: Repository): (ds: seq<Deployment>)
    requires |coordinates| == |attached|
    ensures |ds| == |attached|
    ensures forall k :: 0 <= k < |attached| ==> ds[k] == Deployment(attached[k].file, attached[k], coordinates[k], repo)
  {
    seq(|attached|, k requires 0 <= k < |attached| => Deployment(attached[k].file, attached[k], coordinates[k], repo))
  }

  /** The coordinates of each artifact of a list, in list order. */
  ghost function Keys(s: seq<Artifact>): (cs: seq<Coordinate>)
    reads s
    ensures |cs| == |s| && forall k :: 0 <= k < |s| ==> cs[k] == s[k].Key()
  {
    seq(|s|, k requires 0 <= k < |s| reads s => s[k].Key())
  }

  /** The fields of an artifact that deploying it may change. */
  datatype Fields = Fields(metadata: seq<Metadata>, release: bool, version: string)

  /** The changing fields of each artifact of a list, in list order. */
  ghost function FieldsOf(s: seq<Artifact>): (fs: seq<Fields>)
    reads s
    ensures |fs| == |s| && forall k :: 0 <= k < |s| ==> fs[k] == Fields(s[k].metadata, s[k].release, s[k].version)
  {
    seq(|s|, k requires 0 <= k < |s| reads s => Fields(s[k].metadata, s[k].release, s[k].version))
  }

  /** The transfers of several artifacts, one block after another. */
  function Concat(blocks: seq<seq<Deployment>>): (all: seq<Deployment>) {
    if blocks == [] then [] else Concat(blocks[..|blocks| - 1]) + blocks[|blocks| - 1]
  }

  /** One more block extends the concatenation by that block. */
  lemma ConcatAppend(blocks: seq<seq<Deployment>>, block: seq<Deployment>)
    ensures Concat(blocks + [block]) == Concat(blocks) + block
  {
    assert (blocks + [block])[..|blocks|] == blocks;
  }

  /**
   * The loop over a set so far: order lists distinct elements of the set,
   * none of them still remaining, and together they account for all of it.
   */
  ghost predicate Enumerating<T>(all: set<T>, remaining: set<T>, order: seq<T>) {
    && remaining <= all && |order| + |remaining| == |all|
    && (forall x :: x in all && x !in remaining ==> x in order)
    && (forall i :: 0 <= i < |order| ==> order[i] in all && order[i] !in remaining)
    && (forall i, j :: 0 <= i < j < |order| ==> order[i] != order[j])
  }

  /** The elements of a set, each once, in no particular order: a hash set's iteration order. */
  method Enumerate<T>(all: set<T>) returns (order: seq<T>)
    ensures Enumerating(all, {}, order)
  {
    order := [];
    var rest := all;
    while rest != {}
      invariant Enumerating(all, rest, order)
      decreases |rest|
    {
      var x :| x in rest;
      EnumeratingStep(all, rest, order, x);
      order := order + [x];
      rest := rest - {x};
    }
  }

  /** Taking one more remaining element keeps the enumeration well formed. */
  lemma EnumeratingStep<T>(all: set<T>, remaining: set<T>, order: seq<T>, x: T)
    requires Enumerating(all, remaining, order) && x in remaining
    ensures Enumerating(all, remaining - {x}, order + [x])
  {
  }

  /** Sequence concatenation regroups freely. */
  lemma Associative<T>(a: seq<T>, b: seq<T>, c: seq<T>)
    ensures (a + b) + c == a + (b + c)
  {
  }

  /** A prefix one longer is the prefix and the next element. */
  lemma PrefixStep<T>(s: seq<T>, i: nat)
    requires i < |s|
    ensures s[..i + 1] == s[..i] + [s[i]]
  {
  }

  /** The attached artifacts, each deployed with its own file, in list order; the first failure stops the loop. */
  method DeployAttachments(deployer: Deployer, attached: seq<Artifact>, repo: Repository) returns (r: Outcome<DeployError>, ghost sent: nat)
    requires DistinctArtifacts(attached)
    modifies deployer`published, attached
    ensures sent <= |attached|
    ensures deployer.published
            == old(deployer.published) + AttachmentDeployments(attached, old(Keys(attached)), repo)[..sent]
    ensures r.Pass? <==> sent == |attached|
    ensures r.Fail? ==> r == Fail(DeploymentFailed(
              AttachmentDeployments(attached, old(Keys(attached)), repo)[sent]))
    ensures r.Fail? ==> !deployer.accepts(attached[sent].file, old(Keys(attached))[sent], repo)
    ensures forall k :: 0 <= k < sent ==> attached[k].version == deployer.assignedVersion(old(Keys(attached))[k], repo)
    ensures forall k :: sent <= k < |attached| ==> attached[k].version == old(attached[k].version)
    ensures forall k :: 0 <= k < |attached| ==>
              attached[k].metadata == old(attached[k].metadata) && attached[k].release == old(attached[k].release)
  {
    ghost var coordinates := Keys(attached);
    ghost var planned := AttachmentDeployments(attached, coordinates, repo);
    sent := 0;
    for i := 0 to |attached|
      invariant sent == i
      invariant deployer.published == old(deployer.published) + planned[..i]
      invariant forall k :: 0 <= k < i ==> attached[k].version == deployer.assignedVersion(coordinates[k], repo)
      invariant forall k :: i <= k < |attached| ==> attached[k].version == old(attached[k].version)
      invariant forall k :: 0 <= k < |attached| ==>
                  attached[k].metadata == old(attached[k].metadata) && attached[k].release == old(attached[k].release)
    {
      var c := attached[i].Key();
      assert c == coordinates[i];
      var ok := deployer.Deploy(attached[i].file, attached[i], repo);
      if !ok {
        return Fail(DeploymentFailed(Deployment(attached[i].file, attached[i], c, repo))), i;
      }
      PrefixStep(planned, i);
      sent := i + 1;
    }
    r := Pass;
  }

  class DeployMojo {
    const project: Project
    const settings: Settings
    const components: Components
    const deployer: Deployer
    var pomFile: Option<File>

    constructor (project: Project, settings: Settings, components: Components, deployer: Deployer)
      requires DistinctArtifacts(project.attached)
      ensures this.project == project && this.settings == settings
      ensures this.components == components && this.deployer == deployer && pomFile.None?
      ensures Valid()
    {
      this.project := project;
      this.settings := settings;
      this.components := components;
      this.deployer := deployer;
      this.pomFile := None;
    }

    /** The attached artifacts are distinct objects: Maven refuses a second equal attachment. */
    predicate Valid() {
      DistinctArtifacts(project.attached)
    }

    /** The number of transfers the goal plans for an artifact whose coordinates were c; 0 when it fails first. */
    function PlanLength(file: Option<File>, c: Coordinate): (n: nat) {
      var pc := PomCoordinate(c);
      if components.resolvePom(pc).None? then 0
      else if settings.filterPom && components.buildHierarchy(pc).None? then 0
      else if PrimaryChoice(project.packaging, file, |project.attached|) == NoMainFile then 0
      else 1 + |project.attached| + (if settings.filterPom then 1 else 0)
    }

    /**
     * The primary transfer planned for artifact a, with coordinates c and
     * resolved POM pom: the POM for a `pom` project, else the artifact's own
     * file, else the POM under a separate POM artifact with the base version.
     */
    ghost predicate PrimaryEntry(d: Deployment, a: Artifact, c: Coordinate, pom: File, repo: Repository) {
      match PrimaryChoice(project.packaging, a.file, |project.attached|)
      case PomPackaging => d == Deployment(Some(pom), a, c, repo)
      case MainFile => d == Deployment(a.file, a, c, repo)
      case PomInstead =>
        && d == Deployment(Some(pom), d.artifact, Coordinate(c.groupId, c.artifactId, a.baseVersion, "pom", None), repo)
        && d.artifact != a && d.artifact.file == Some(pom)
      case NoMainFile => false
    }

    /**
     * The transfer planned for the k-th attached artifact: that artifact with
     * its own file, under its own group, id, type and classifier (its version
     * is whatever an earlier round left it).
     */
    ghost predicate AttachmentEntry(d: Deployment, k: nat, repo: Repository)
      requires k < |project.attached|
    {
      && d.artifact == project.attached[k] && d.file == project.attached[k].file && d.repository == repo
      && project.attached[k].Names(d.coordinate)
    }

    /** The last planned transfer: the flattened POM, under a POM artifact other than a. */
    ghost predicate FlattenedEntry(d: Deployment, a: Artifact, pc: Coordinate, pom: File, repo: Repository)
      requires components.buildHierarchy(pc).Some?
    {
      && d == Deployment(Some(FlattenedPom(Flattened(components.buildHierarchy(pc).value, components.assemble))),
                         d.artifact, pc, repo)
      && d.artifact != a && d.artifact.file == Some(pom)
    }

    /**
     * The k-th planned transfer for artifact a, whose coordinates were c:
     * first the primary one, then each attached artifact in list order, then
     * the flattened POM.
     */
    ghost predicate PlanEntry(k: nat, d: Deployment, a: Artifact, c: Coordinate, repo: Repository)
      requires k < PlanLength(a.file, c)
    {
      var pc := PomCoordinate(c);
      var pom := components.resolvePom(pc).value;
      if k == 0 then PrimaryEntry(d, a, c, pom, repo)
      else if k <= |project.attached| then AttachmentEntry(d, k - 1, repo)
      else FlattenedEntry(d, a, pc, pom, repo)
    }

    /** The transfers made so far agree with the plan, entry by entry. */
    ghost predicate IsPlanPrefix(block: seq<Deployment>, a: Artifact, c: Coordinate, repo: Repository) {
      && |block| <= PlanLength(a.file, c)
      && forall k :: 0 <= k < |block| ==> PlanEntry(k, block[k], a, c, repo)
    }

    /** The number of transfers planned before the flattened POM: the primary one and the attached ones. */
    function MainLength(file: Option<File>, c: Coordinate): (n: nat)
      ensures n <= PlanLength(file, c)
      ensures n == PlanLength(file, c) || (settings.filterPom && n + 1 == PlanLength(file, c))
    {
      if PlanLength(file, c) == 0 then 0 else 1 + |project.attached|
    }

    /**
     * The transfers in block, ending in outcome r, carried out the first len
     * planned transfers for artifact a: block is a prefix of the plan, r
     * passes exactly when all len were made, and otherwise r names the
     * planned transfer the deployer refused, the one right after block.
     */
    ghost predicate RanPlan(block: seq<Deployment>, r: Outcome<DeployError>, a: Artifact, c: Coordinate, repo: Repository, len: nat) {
      && len <= PlanLength(a.file, c) && IsPlanPrefix(block, a, c, repo) && |block| <= len
      && (r.Pass? <==> len > 0 && |block| == len)
      && (r.Fail? && len > 0 ==>
            && r.error.DeploymentFailed? && |block| < len
            && PlanEntry(|block|, r.error.deployment, a, c, repo)
            && !deployer.accepts(r.error.deployment.file, r.error.deployment.coordinate, repo))
    }

    /**
     * What deploying artifact a, whose coordinates were c, did: the
     * transfers in block carried the plan out as far as outcome r says, and r
     * names the first failure: the POM not resolved, the POM not built for
     * flattening, no primary file, or a refused transfer.
     */
    ghost predicate Deployed(block: seq<Deployment>, r: Outcome<DeployError>, a: Artifact, c: Coordinate, repo: Repository) {
      var pc := PomCoordinate(c);
      && RanPlan(block, r, a, c, repo, PlanLength(a.file, c))
      && (components.resolvePom(pc).None? ==> r == Fail(PomNotResolved(pc)))
      && (components.resolvePom(pc).Some? && settings.filterPom && components.buildHierarchy(pc).None? ==>
            r == Fail(PomNotBuilt(pc)))
      && ((components.resolvePom(pc).Some? && (settings.filterPom ==> components.buildHierarchy(pc).Some?)
           && PlanLength(a.file, c) == 0) ==> r == Fail(NoPrimaryFile))
    }

    /** `getDeploymentRepository` with this goal's parameters. */
    function TargetRepository(): (r: Result<Repository, RepositoryError>) {
      DeploymentRepository(settings.altDeploymentRepository, project.distributionRepository, settings.knownLayouts)
    }

    /**
     * What deploying the set artifacts did: nothing when skipped, offline or
     * without a repository; otherwise what ExecutedAll says.
     */
    ghost predicate Ran(artifacts: set<Artifact>, r: Outcome<DeployError>, order: seq<Artifact>,
                        coords: seq<Coordinate>, blocks: seq<seq<Deployment>>) {
      && (settings.skip ==> r == Pass && order == [] && blocks == [])
      && (!settings.skip && settings.offline ==> r == Fail(Offline) && order == [] && blocks == [])
      && (!settings.skip && !settings.offline && TargetRepository().Failure? ==>
            r == Fail(Misconfigured(TargetRepository().error)) && order == [] && blocks == [])
      && (!settings.skip && !settings.offline && TargetRepository().Success? ==>
            ExecutedAll(artifacts, r, order, coords, blocks, TargetRepository().value))
    }

    /**
     * The loop over the set artifacts: the artifacts in order, each once,
     * each deployed completely except that the last may have failed, with r.
     * The i-th artifact had coordinates coords[i] and made the transfers blocks[i].
     */
    ghost predicate ExecutedAll(artifacts: set<Artifact>, r: Outcome<DeployError>, order: seq<Artifact>,
                                coords: seq<Coordinate>, blocks: seq<seq<Deployment>>, repo: Repository) {
      && |coords| == |order| && |blocks| == |order|
      && (forall i :: 0 <= i < |order| ==> order[i] in artifacts)
      && (forall i, j :: 0 <= i < j < |order| ==> order[i] != order[j])
      && (r.Pass? ==> |order| == |artifacts|)
      && (r.Fail? ==> |order| > 0)
      && (forall i :: 0 <= i < |order| ==>
            Deployed(blocks[i], if i + 1 < |order| then Pass else r, order[i], coords[i], repo))
    }

    /** `filterPom(thePomArtifact)`: build the POM with its ancestors and flatten it. */
    method FilterPom(thePom: Coordinate) returns (r: Result<File, DeployError>)
      ensures components.buildHierarchy(thePom).None? ==> r == Failure(PomNotBuilt(thePom))
      ensures components.buildHierarchy(thePom).Some? ==>
                r == Success(FlattenedPom(Flattened(components.buildHierarchy(thePom).value, components.assemble)))
    {
      var h := components.buildHierarchy(thePom);
      if h.None? {
        return Failure(PomNotBuilt(thePom));
      }
      var flat := FlattenPom(h.value, components.assemble);
      return Success(FlattenedPom(flat));
    }

    /** The primary transfer for an artifact, once its POM is known. */
    method DeployPrimary(a: Artifact, pom: File, repo: Repository) returns (r: Outcome<DeployError>, d: Deployment)
      modifies deployer`published, a`version
      ensures PrimaryChoice(project.packaging, a.file, |project.attached|) == NoMainFile ==>
                r == Fail(NoPrimaryFile) && deployer.published == old(deployer.published) && a.version == old(a.version)
      ensures PrimaryChoice(project.packaging, a.file, |project.attached|) != NoMainFile ==>
                PrimaryEntry(d, a, old(a.Key()), pom, repo)
      ensures PrimaryChoice(project.packaging, a.file, |project.attached|) == PomInstead ==>
                fresh(d.artifact) && d.artifact.release == settings.updateReleaseInfo
      ensures r.Pass? ==>
                && deployer.accepts(d.file, d.coordinate, repo)
                && deployer.published == old(deployer.published) + [d]
                && a.version == deployer.assignedVersion(d.coordinate, repo)
      ensures r.Fail? && PrimaryChoice(project.packaging, a.file, |project.attached|) != NoMainFile ==>
                && r == Fail(DeploymentFailed(d)) && !deployer.accepts(d.file, d.coordinate, repo)
                && deployer.published == old(deployer.published) && a.version == old(a.version)
    {
      var ok: bool;
      var c := a.Key();
      if project.packaging == "pom" {
        d := Deployment(Some(pom), a, c, repo);
        ok := deployer.Deploy(Some(pom), a, repo);
      } else if a.file.Some? && (a.file.value.FlattenedPom? || a.file.value.isRegular) {
        d := Deployment(a.file, a, c, repo);
        ok := deployer.Deploy(a.file, a, repo);
      } else if |project.attached| != 0 {
        var pomArtifact := new Artifact(a.groupId, a.artifactId, a.baseVersion, "pom", None, Some(pom));
        if settings.updateReleaseInfo {
          pomArtifact.SetRelease(true);
        }
        d := Deployment(Some(pom), pomArtifact, pomArtifact.Key(), repo);
        ok := deployer.Deploy(Some(pom), pomArtifact, repo);
        if ok {
          a.SetResolvedVersion(pomArtifact.version);
        }
      } else {
        d := Deployment(None, a, c, repo);
        return Fail(NoPrimaryFile), d;
      }
      r := if ok then Pass else Fail(DeploymentFailed(d));
    }

    /**
     * Lines 211-235: resolve the POM of an artifact whose coordinates are c,
     * flatten it once when asked (the result is overwritten straight away),
     * remember the resolved POM, attach it as metadata unless the project is
     * a POM, and mark a release.
     */
    method PreparePom(a: Artifact, c: Coordinate) returns (r: Result<File, DeployError>)
      modifies this`pomFile, a`metadata, a`release
      ensures var pc := PomCoordinate(c);
              if components.resolvePom(pc).None? then
                r == Failure(PomNotResolved(pc)) && pomFile == old(pomFile)
                && a.metadata == old(a.metadata) && a.release == old(a.release)
              else if settings.filterPom && components.buildHierarchy(pc).None? then
                r == Failure(PomNotBuilt(pc)) && pomFile == old(pomFile)
                && a.metadata == old(a.metadata) && a.release == old(a.release)
              else
                && r == Success(components.resolvePom(pc).value) && pomFile == components.resolvePom(pc)
                && a.metadata == old(a.metadata) + (if project.packaging == "pom" then [] else [ProjectMetadata(r.value)])
                && a.release == (old(a.release) || settings.updateReleaseInfo)
    {
      var pc := PomCoordinate(c);
      var resolved := components.resolvePom(pc);
      if resolved.None? {
        return Failure(PomNotResolved(pc));
      }
      if settings.filterPom {
        var early := FilterPom(pc);
        if early.Failure? {
          return Failure(early.error);
        }
        pomFile := Some(early.value);
      }
      pomFile := resolved;
      if project.packaging != "pom" {
        a.AddMetadata(ProjectMetadata(resolved.value));
      }
      if settings.updateReleaseInfo {
        a.SetRelease(true);
      }
      r := Success(resolved.value);
    }

    /** Lines 271-273: flatten the POM with coordinates pc again and deploy it under a POM artifact with file pom. */
    method DeployFlattened(pc: Coordinate, pom: File, repo: Repository) returns (r: Outcome<DeployError>, d: Deployment)
      requires pc.kind == "pom" && pc.classifier.None?
      requires components.buildHierarchy(pc).Some?
      modifies this`pomFile, deployer`published
      ensures pomFile == Some(FlattenedPom(Flattened(components.buildHierarchy(pc).value, components.assemble)))
      ensures d == Deployment(pomFile, d.artifact, pc, repo) && fresh(d.artifact) && d.artifact.file == Some(pom)
      ensures r.Pass? <==> deployer.accepts(pomFile, pc, repo)
      ensures r.Pass? ==> deployer.published == old(deployer.published) + [d]
      ensures r.Fail? ==> r == Fail(DeploymentFailed(d)) && deployer.published == old(deployer.published)
    {
      var thePom := new Artifact(pc.groupId, pc.artifactId, pc.version, pc.kind, pc.classifier, Some(pom));
      var late := FilterPom(pc);
      pomFile := Some(late.value);
      d := Deployment(pomFile, thePom, pc, repo);
      var ok := deployer.Deploy(pomFile, thePom, repo);
      r := if ok then Pass else Fail(DeploymentFailed(d));
    }

    /** Once the POM is known, a primary transfer is the first planned entry. */
    lemma PrimaryFirst(a: Artifact, c: Coordinate, pom: File, repo: Repository, d: Deployment)
      requires components.resolvePom(PomCoordinate(c)) == Some(pom)
      requires settings.filterPom ==> components.buildHierarchy(PomCoordinate(c)).Some?
      requires PrimaryEntry(d, a, c, pom, repo)
      ensures PlanLength(a.file, c) == 1 + |project.attached| + (if settings.filterPom then 1 else 0)
      ensures PlanEntry(0, d, a, c, repo)
    {
    }

    /** A primary transfer followed by the first sent attached artifacts' transfers is how a plan starts. */
    lemma PrimaryAndAttachments(a: Artifact, c: Coordinate, pom: File, repo: Repository, d: Deployment,
                                before: seq<Coordinate>, sent: nat)
      requires components.resolvePom(PomCoordinate(c)) == Some(pom)
      requires settings.filterPom ==> components.buildHierarchy(PomCoordinate(c)).Some?
      requires PrimaryEntry(d, a, c, pom, repo)
      requires |before| == |project.attached| && sent <= |project.attached|
      requires forall k :: 0 <= k < |before| ==> project.attached[k].Names(before[k])
      ensures IsPlanPrefix([d] + AttachmentDeployments(project.attached, before, repo)[..sent], a, c, repo)
      ensures sent < |project.attached| ==>
                PlanEntry(1 + sent, AttachmentDeployments(project.attached, before, repo)[sent], a, c, repo)
      ensures forall k :: 1 <= k <= sent ==>
                ([d] + AttachmentDeployments(project.attached, before, repo)[..sent])[k].coordinate == before[k - 1]
    {
      var block := [d] + AttachmentDeployments(project.attached, before, repo)[..sent];
      PrimaryFirst(a, c, pom, repo, d);
      forall k | 0 <= k < |block|
        ensures PlanEntry(k, block[k], a, c, repo)
      {
        if k > 0 {
          assert block[k] == AttachmentDeployments(project.attached, before, repo)[k - 1];
        }
      }
    }

    /** When flattening is off, or the main part failed, the main part's outcome is the whole plan's outcome. */
    lemma MainIsWhole(block: seq<Deployment>, r: Outcome<DeployError>, a: Artifact, c: Coordinate, repo: Repository)
      requires RanPlan(block, r, a, c, repo, MainLength(a.file, c))
      requires r.Fail? || !settings.filterPom
      ensures RanPlan(block, r, a, c, repo, PlanLength(a.file, c))
    {
    }

    /** After the primary and all attached transfers, the flattened POM transfer flat completes the plan or stops it. */
    lemma WithFlattened(block: seq<Deployment>, a: Artifact, c: Coordinate, pom: File, repo: Repository,
                        flat: Deployment, r: Outcome<DeployError>)
      requires settings.filterPom && components.resolvePom(PomCoordinate(c)) == Some(pom)
      requires components.buildHierarchy(PomCoordinate(c)).Some?
      requires RanPlan(block, Pass, a, c, repo, MainLength(a.file, c))
      requires FlattenedEntry(flat, a, PomCoordinate(c), pom, repo)
      requires r.Pass? <==> deployer.accepts(flat.file, flat.coordinate, repo)
      requires r.Fail? ==> r == Fail(DeploymentFailed(flat))
      ensures RanPlan(if r.Pass? then block + [flat] else block, r, a, c, repo, PlanLength(a.file, c))
    {
      if r.Pass? {
        var whole := block + [flat];
        forall k | 0 <= k < |whole|
          ensures PlanEntry(k, whole[k], a, c, repo)
        {
          if k < |block| {
            assert whole[k] == block[k];
          }
        }
      }
    }

    /** Lines 237-264 when the primary transfer did not happen: the outcome of the main part, with nothing sent. */
    lemma PrimaryRefused(a: Artifact, c: Coordinate, pom: File, repo: Repository, d: Deployment, r: Outcome<DeployError>)
      requires components.resolvePom(PomCoordinate(c)) == Some(pom)
      requires settings.filterPom ==> components.buildHierarchy(PomCoordinate(c)).Some?
      requires PrimaryChoice(project.packaging, a.file, |project.attached|) == NoMainFile ==> r == Fail(NoPrimaryFile)
      requires PrimaryChoice(project.packaging, a.file, |project.attached|) != NoMainFile ==>
                 && PrimaryEntry(d, a, c, pom, repo)
                 && r == Fail(DeploymentFailed(d)) && !deployer.accepts(d.file, d.coordinate, repo)
      ensures RanPlan([], r, a, c, repo, MainLength(a.file, c))
      ensures PlanLength(a.file, c) == 0 ==> r == Fail(NoPrimaryFile)
    {
      if PrimaryChoice(project.packaging, a.file, |project.attached|) != NoMainFile {
        PrimaryFirst(a, c, pom, repo, d);
      }
    }

    /** Lines 237-270 after the primary transfer d and the first sent attached transfers, which make up block. */
    lemma PrimaryAccepted(a: Artifact, c: Coordinate, pom: File, repo: Repository, d: Deployment,
                          before: seq<Coordinate>, sent: nat, r: Outcome<DeployError>, block: seq<Deployment>)
      requires components.resolvePom(PomCoordinate(c)) == Some(pom)
      requires settings.filterPom ==> components.buildHierarchy(PomCoordinate(c)).Some?
      requires PrimaryEntry(d, a, c, pom, repo)
      requires |before| == |project.attached| && sent <= |project.attached|
      requires forall k :: 0 <= k < |before| ==> project.attached[k].Names(before[k])
      requires r.Pass? <==> sent == |project.attached|
      requires r.Fail? ==> r == Fail(DeploymentFailed(AttachmentDeployments(project.attached, before, repo)[sent]))
      requires r.Fail? ==> !deployer.accepts(project.attached[sent].file, before[sent], repo)
      requires block == [d] + AttachmentDeployments(project.attached, before, repo)[..sent]
      ensures RanPlan(block, r, a, c, repo, MainLength(a.file, c)) && PlanLength(a.file, c) > 0
      ensures forall k :: 1 <= k < |block| ==> block[k].coordinate == before[k - 1]
    {
      PrimaryFirst(a, c, pom, repo, d);
      PrimaryAndAttachments(a, c, pom, repo, d, before, sent);
    }

    /** Lines 248-270: the attached artifacts, after the primary transfer d of artifact a, which block starts with. */
    method DeployRest(ghost a: Artifact, ghost c: Coordinate, ghost pom: File, repo: Repository, ghost d: Deployment)
      returns (r: Outcome<DeployError>, ghost block: seq<Deployment>)
      requires Valid()
      requires components.resolvePom(PomCoordinate(c)) == Some(pom)
      requires settings.filterPom ==> components.buildHierarchy(PomCoordinate(c)).Some?
      requires PrimaryEntry(d, a, c, pom, repo)
      modifies deployer`published, project.attached
      ensures |block| > 0 && block[0] == d
      ensures deployer.published == old(deployer.published) + block[1..]
      ensures RanPlan(block, r, a, c, repo, MainLength(a.file, c))
      ensures forall k :: 1 <= k < |block| ==> block[k].coordinate == old(Keys(project.attached))[k - 1]
    {
      ghost var before := Keys(project.attached);
      ghost var sent;
      r, sent := DeployAttachments(deployer, project.attached, repo);
      block := [d] + AttachmentDeployments(project.attached, before, repo)[..sent];
      PrimaryAccepted(a, c, pom, repo, d, before, sent, r, block);
    }

    /**
     * Lines 237-270 for an artifact a whose coordinates are c and whose POM
     * resolved to pom: the primary transfer, then the attached artifacts in
     * list order; the first failure stops the sequence.
     */
    method DeployMain(a: Artifact, c: Coordinate, pom: File, repo: Repository) returns (r: Outcome<DeployError>, ghost block: seq<Deployment>)
      requires Valid() && a !in project.attached && c == a.Key()
      requires components.resolvePom(PomCoordinate(c)) == Some(pom)
      requires settings.filterPom ==> components.buildHierarchy(PomCoordinate(c)).Some?
      modifies a`version, deployer`published, project.attached
      ensures deployer.published == old(deployer.published) + block
      ensures RanPlan(block, r, a, c, repo, MainLength(a.file, c))
      ensures PlanLength(a.file, c) == 0 ==> r == Fail(NoPrimaryFile)
      ensures forall k :: 1 <= k < |block| ==> block[k].coordinate == old(Keys(project.attached))[k - 1]
      ensures a.version == (if |block| > 0 then deployer.assignedVersion(block[0].coordinate, repo) else old(a.version))
    {
      var primary, d := DeployPrimary(a, pom, repo);
      if primary.Fail? {
        PrimaryRefused(a, c, pom, repo, d, primary);
        return primary, [];
      }
      r, block := DeployRest(a, c, pom, repo, d);
      assert block == [d] + block[1..];
      Associative(old(deployer.published), [d], block[1..]);
    }

    /**
     * Lines 237-274: the primary transfer and the attached artifacts, then,
     * when flattening, the flattened POM; the first failure stops the sequence.
     */
    method Transfer(a: Artifact, c: Coordinate, pom: File, repo: Repository) returns (r: Outcome<DeployError>, ghost block: seq<Deployment>)
      requires Valid() && a !in project.attached && c == a.Key()
      requires components.resolvePom(PomCoordinate(c)) == Some(pom)
      requires settings.filterPom ==> components.buildHierarchy(PomCoordinate(c)).Some?
      modifies this`pomFile, a`version, deployer`published, project.attached
      ensures deployer.published == old(deployer.published) + block
      ensures RanPlan(block, r, a, c, repo, PlanLength(a.file, c))
      ensures PlanLength(a.file, c) == 0 ==> r == Fail(NoPrimaryFile)
      ensures forall k :: 1 <= k < |block| && k <= |project.attached| ==>
                block[k].coordinate == old(Keys(project.attached))[k - 1]
      ensures pomFile == (if settings.filterPom && |block| > |project.attached| then
                            Some(FlattenedPom(Flattened(components.buildHierarchy(PomCoordinate(c)).value, components.assemble)))
                          else old(pomFile))
      ensures a.version == (if |block| > 0 then deployer.assignedVersion(block[0].coordinate, repo) else old(a.version))
    {
      r, block := DeployMain(a, c, pom, repo);
      if r.Pass? && settings.filterPom {
        var main := block;
        var flat;
        r, flat := DeployFlattened(PomCoordinate(c), pom, repo);
        WithFlattened(main, a, c, pom, repo, flat, r);
        if r.Pass? {
          Associative(old(deployer.published), main, [flat]);
          block := main + [flat];
        }
      } else {
        MainIsWhole(block, r, a, c, repo);
      }
    }

    /** The body of the loop over artifacts (lines 207-277), for one artifact a. */
    method DeployArtifact(a: Artifact, repo: Repository) returns (r: Outcome<DeployError>, ghost block: seq<Deployment>)
      requires Valid() && a !in project.attached
      modifies this`pomFile, a, deployer`published, project.attached
      ensures deployer.published == old(deployer.published) + block
      ensures Deployed(block, r, a, old(a.Key()), repo)
      ensures forall k :: 1 <= k < |block| && k <= |project.attached| ==>
                block[k].coordinate == old(project.attached[k - 1].Key())
      ensures var pc := PomCoordinate(old(a.Key()));
              if components.resolvePom(pc).Some? && (settings.filterPom ==> components.buildHierarchy(pc).Some?) then
                && a.metadata == old(a.metadata)
                                 + (if project.packaging == "pom" then [] else [ProjectMetadata(components.resolvePom(pc).value)])
                && a.release == (old(a.release) || settings.updateReleaseInfo)
                && pomFile == (if settings.filterPom && |block| > |project.attached| then
                                 Some(FlattenedPom(Flattened(components.buildHierarchy(pc).value, components.assemble)))
                               else components.resolvePom(pc))
              else
                a.metadata == old(a.metadata) && a.release == old(a.release) && pomFile == old(pomFile)
      ensures a.version == (if |block| > 0 then deployer.assignedVersion(block[0].coordinate, repo) else old(a.version))
    {
      var c := a.Key();
      var prepared := PreparePom(a, c);
      if prepared.Failure? {
        return Fail(prepared.error), [];
      }
      r, block := Transfer(a, c, prepared.value, repo);
    }

    /** Lines 176-180: the project's dependencies when asked, then the project artifact, in a hash set. */
    method ArtifactSet() returns (t: set<Artifact>)
      ensures t <= project.artifacts + {project.artifact}
      ensures !settings.deployDependencies ==> t == {project.artifact}
      ensures settings.deployDependencies ==> forall b :: b in project.artifacts ==> HasEqual(t, b)
      ensures HasEqual(t, project.artifact) && EqualityDistinct(t)
      ensures (!settings.deployDependencies || !HasEqual(project.artifacts, project.artifact)) ==> project.artifact in t
    {
      t := {};
      if settings.deployDependencies {
        t := AddAll(t, project.artifacts);
      }
      var before := t;
      t := Add(t, project.artifact);
      if settings.deployDependencies && !HasEqual(project.artifacts, project.artifact) {
        assert !HasEqual(before, project.artifact);
      }
    }

    /**
     * What deploying artifact a, whose fields were f and whose coordinates
     * were therefore c, made of its fields now (lines 229-235 and 259):
     * once its POM is known it carries the POM as metadata unless the project
     * is a POM, and it is a release when asked; its version is the one its
     * first transfer was given.
     */
    ghost predicate ArtifactUpdated(a: Artifact, now: Fields, f: Fields, c: Coordinate, block: seq<Deployment>,
                                    repo: Repository)
    {
      var pc := PomCoordinate(c);
      && c == Coordinate(a.groupId, a.artifactId, f.version, a.kind, a.classifier)
      && (if components.resolvePom(pc).Some? && (settings.filterPom ==> components.buildHierarchy(pc).Some?) then
            && now.metadata == f.metadata + (if project.packaging == "pom" then [] else [ProjectMetadata(components.resolvePom(pc).value)])
            && now.release == (f.release || settings.updateReleaseInfo)
          else now.metadata == f.metadata && now.release == f.release)
      && now.version == (if |block| > 0 then deployer.assignedVersion(block[0].coordinate, repo) else f.version)
    }

    /**
     * The artifacts of items, whose changing fields were before and are now:
     * the first n were deployed, the k-th with coordinates coords[k] making
     * transfers blocks[k], and changed as ArtifactUpdated says; the others
     * are as they were.
     */
    ghost predicate Progress(items: seq<Artifact>, now: seq<Fields>, n: nat, coords: seq<Coordinate>,
                             blocks: seq<seq<Deployment>>, before: seq<Fields>, repo: Repository)
    {
      && n <= |items| && |now| == |items| && |before| == |items| && |coords| == n && |blocks| == n
      && (forall k :: 0 <= k < n ==> ArtifactUpdated(items[k], now[k], before[k], coords[k], blocks[k], repo))
      && (forall k :: n <= k < |items| ==> now[k] == before[k])
    }

    /** Progress, with the artifacts' fields as they are in the heap. */
    ghost predicate RunUpdated(items: seq<Artifact>, n: nat, coords: seq<Coordinate>, blocks: seq<seq<Deployment>>,
                               before: seq<Fields>, repo: Repository)
      reads items
    {
      Progress(items, FieldsOf(items), n, coords, blocks, before, repo)
    }

    /** A round that changed only the fields of items[i], as ArtifactUpdated says, extends Progress by one artifact. */
    lemma ProgressStep(items: seq<Artifact>, mid: seq<Fields>, now: seq<Fields>, i: nat, coords: seq<Coordinate>,
                       blocks: seq<seq<Deployment>>, before: seq<Fields>, repo: Repository, c: Coordinate,
                       block: seq<Deployment>)
      requires Progress(items, mid, i, coords, blocks, before, repo) && i < |items| && |now| == |items|
      requires forall k :: 0 <= k < |items| && k != i ==> now[k] == mid[k]
      requires ArtifactUpdated(items[i], now[i], mid[i], c, block, repo)
      ensures Progress(items, now, i + 1, coords + [c], blocks + [block], before, repo)
    {
      forall k | 0 <= k < i + 1
        ensures ArtifactUpdated(items[k], now[k], before[k], (coords + [c])[k], (blocks + [block])[k], repo)
      {
        if k < i {
          assert ArtifactUpdated(items[k], mid[k], before[k], coords[k], blocks[k], repo);
        }
      }
    }

    /** Every artifact in order was deployed completely, the i-th with coordinates coords[i] making transfers blocks[i]. */
    ghost predicate AllDeployed(order: seq<Artifact>, coords: seq<Coordinate>, blocks: seq<seq<Deployment>>, repo: Repository) {
      && |coords| == |order| && |blocks| == |order|
      && forall i :: 0 <= i < |order| ==> Deployed(blocks[i], Pass, order[i], coords[i], repo)
    }

    /** One more artifact a deployed, with outcome r: the loop goes on, or it ends with what ExecutedAll promises. */
    lemma DeployedOneMore(artifacts: set<Artifact>, remaining: set<Artifact>, order: seq<Artifact>, coords: seq<Coordinate>,
                          blocks: seq<seq<Deployment>>, a: Artifact, c: Coordinate, block: seq<Deployment>,
                          r: Outcome<DeployError>, repo: Repository)
      requires Enumerating(artifacts, remaining, order) && a in remaining
      requires AllDeployed(order, coords, blocks, repo)
      requires Deployed(block, r, a, c, repo)
      ensures r.Pass? ==> AllDeployed(order + [a], coords + [c], blocks + [block], repo)
      ensures r.Fail? ==> ExecutedAll(artifacts, r, order + [a], coords + [c], blocks + [block], repo)
    {
      EnumeratingStep(artifacts, remaining, order, a);
      var order', coords', blocks' := order + [a], coords + [c], blocks + [block];
      forall i | 0 <= i < |order'|
        ensures Deployed(blocks'[i], if i + 1 < |order'| || r.Pass? then Pass else r, order'[i], coords'[i], repo)
      {
        if i < |order| {
          assert blocks'[i] == blocks[i] && order'[i] == order[i] && coords'[i] == coords[i];
        }
      }
    }

    /** One round of the loop over artifacts (lines 207-277): deploy a, which is not yet deployed. */
    method DeployNext(ghost artifacts: set<Artifact>, ghost remaining: set<Artifact>, ghost order: seq<Artifact>,
                      ghost coords: seq<Coordinate>, ghost blocks: seq<seq<Deployment>>, a: Artifact, repo: Repository)
      returns (r: Outcome<DeployError>, ghost c: Coordinate, ghost block: seq<Deployment>)
      requires Valid() && a !in project.attached
      requires Enumerating(artifacts, remaining, order) && a in remaining
      requires AllDeployed(order, coords, blocks, repo)
      modifies this`pomFile, a, deployer`published, project.attached
      ensures c == old(a.Key())
      ensures deployer.published == old(deployer.published) + block
      ensures ArtifactUpdated(a, Fields(a.metadata, a.release, a.version), old(Fields(a.metadata, a.release, a.version)),
                              c, block, repo)
      ensures r.Pass? ==> AllDeployed(order + [a], coords + [c], blocks + [block], repo)
      ensures r.Fail? ==> ExecutedAll(artifacts, r, order + [a], coords + [c], blocks + [block], repo)
    {
      c := a.Key();
      r, block := DeployArtifact(a, repo);
      DeployedOneMore(artifacts, remaining, order, coords, blocks, a, c, block, r, repo);
    }

    /**
     * The loop of lines 206-278 after its first i rounds, all of which
     * passed: items[..i] were deployed, the rest of items is still to come,
     * and only the artifacts deployed changed, as RunUpdated says.
     */
    ghost predicate Looped(artifacts: set<Artifact>, remaining: set<Artifact>, items: seq<Artifact>, i: nat,
                           coords: seq<Coordinate>, blocks: seq<seq<Deployment>>, before: seq<Fields>, repo: Repository)
      reads items
    {
      && Enumerating(artifacts, {}, items) && i <= |items|
      && Enumerating(artifacts, remaining, items[..i])
      && (forall k :: i <= k < |items| ==> items[k] in remaining)
      && AllDeployed(items[..i], coords, blocks, repo)
      && RunUpdated(items, i, coords, blocks, before, repo)
    }

    /** Round i of the loop over the artifacts items (lines 206-278): only items[i] changes, as ArtifactUpdated says. */
    method DeployRound(ghost artifacts: set<Artifact>, ghost remaining: set<Artifact>, items: seq<Artifact>, i: nat,
                       ghost coords: seq<Coordinate>, ghost blocks: seq<seq<Deployment>>, ghost before: seq<Fields>,
                       ghost start: seq<Deployment>, repo: Repository)
      returns (r: Outcome<DeployError>, ghost c: Coordinate, ghost block: seq<Deployment>)
      requires Valid() && forall a :: a in artifacts ==> a !in project.attached
      requires Looped(artifacts, remaining, items, i, coords, blocks, before, repo) && i < |items|
      requires deployer.published == start + Concat(blocks)
      modifies this`pomFile, items[i], deployer`published, project.attached
      ensures deployer.published == start + Concat(blocks + [block])
      ensures r.Pass? ==> Looped(artifacts, remaining - {items[i]}, items, i + 1, coords + [c], blocks + [block], before, repo)
      ensures r.Fail? ==> && ExecutedAll(artifacts, r, items[..i + 1], coords + [c], blocks + [block], repo)
                          && RunUpdated(items, i + 1, coords + [c], blocks + [block], before, repo)
    {
      ghost var mid := FieldsOf(items);
      r, c, block := DeployNext(artifacts, remaining, items[..i], coords, blocks, items[i], repo);
      ProgressStep(items, mid, FieldsOf(items), i, coords, blocks, before, repo, c, block);
      EnumeratingStep(artifacts, remaining, items[..i], items[i]);
      PrefixStep(items, i);
      ConcatAppend(blocks, block);
      Associative(start, Concat(blocks), block);
    }

    /** A loop over all the artifacts that met no failure ends with what ExecutedAll promises. */
    lemma DeployedAll(artifacts: set<Artifact>, remaining: set<Artifact>, items: seq<Artifact>, coords: seq<Coordinate>,
                      blocks: seq<seq<Deployment>>, before: seq<Fields>, repo: Repository)
      requires Looped(artifacts, remaining, items, |items|, coords, blocks, before, repo)
      ensures ExecutedAll(artifacts, Pass, items, coords, blocks, repo)
      ensures RunUpdated(items, |items|, coords, blocks, before, repo)
    {
      assert items[..|items|] == items;
    }

    /**
     * Lines 206-278: deploy the artifacts one by one, in the set's iteration
     * order items, stopping at the first failure. The artifacts deployed come
     * first in items; only they change, each as ArtifactUpdated says.
     */
    method DeployEach(artifacts: set<Artifact>, repo: Repository)
      returns (r: Outcome<DeployError>, items: seq<Artifact>, ghost order: seq<Artifact>, ghost coords: seq<Coordinate>,
               ghost blocks: seq<seq<Deployment>>, ghost before: seq<Fields>)
      requires Valid() && forall a :: a in artifacts ==> a !in project.attached
      modifies this`pomFile, artifacts, deployer`published, project.attached
      ensures Enumerating(artifacts, {}, items) && order <= items
      ensures before == old(FieldsOf(items))
      ensures ExecutedAll(artifacts, r, order, coords, blocks, repo)
      ensures deployer.published == old(deployer.published) + Concat(blocks)
      ensures RunUpdated(items, |order|, coords, blocks, before, repo)
    {
      items := Enumerate(artifacts);
      before := FieldsOf(items);
      coords, blocks := [], [];
      ghost var remaining := artifacts;
      for i := 0 to |items|
        invariant Looped(artifacts, remaining, items, i, coords, blocks, before, repo)
        invariant deployer.published == old(deployer.published) + Concat(blocks)
      {
        var outcome, c, block := DeployRound(artifacts, remaining, items, i, coords, blocks, before,
                                             old(deployer.published), repo);
        coords, blocks := coords + [c], blocks + [block];
        remaining := remaining - {items[i]};
        if outcome.Fail? {
          return outcome, items, items[..i + 1], coords, blocks, before;
        }
      }
      order := items;
      DeployedAll(artifacts, remaining, items, coords, blocks, before, repo);
      r := Pass;
    }

    /**
     * What deploying the set artifacts did to them: nothing when skipped,
     * offline or without a repository; otherwise they were visited in the
     * order items, those deployed (order) first, and only those changed,
     * from the fields before, as RunUpdated says.
     */
    ghost predicate Finished(artifacts: set<Artifact>, r: Outcome<DeployError>, items: seq<Artifact>, order: seq<Artifact>,
                             coords: seq<Coordinate>, blocks: seq<seq<Deployment>>, before: seq<Fields>)
      reads items
    {
      && Ran(artifacts, r, order, coords, blocks)
      && (settings.skip || settings.offline || TargetRepository().Failure? ==> items == [])
      && (!settings.skip && !settings.offline && TargetRepository().Success? ==>
            && Enumerating(artifacts, {}, items) && order <= items
            && RunUpdated(items, |order|, coords, blocks, before, TargetRepository().value))
    }

    /**
     * Lines 185-206: unless skipped, fail when offline or without a
     * repository, changing nothing; otherwise deploy each artifact as
     * DeployEach says.
     */
    method ExecuteWithArtifacts(artifacts: set<Artifact>)
      returns (r: Outcome<DeployError>, items: seq<Artifact>, ghost order: seq<Artifact>, ghost coords: seq<Coordinate>,
               ghost blocks: seq<seq<Deployment>>, ghost before: seq<Fields>)
      requires Valid() && forall a :: a in artifacts ==> a !in project.attached
      modifies this`pomFile, artifacts, deployer`published, project.attached
      ensures Finished(artifacts, r, items, order, coords, blocks, before)
      ensures before == old(FieldsOf(items))
      ensures deployer.published == old(deployer.published) + Concat(blocks)
      ensures settings.skip || settings.offline || TargetRepository().Failure? ==> unchanged(artifacts)
    {
      items, order, coords, blocks, before := [], [], [], [], [];
      if settings.skip {
        return Pass, items, order, coords, blocks, before;
      }
      if settings.offline {
        return Fail(Offline), items, order, coords, blocks, before;
      }
      var repo := TargetRepository();
      if repo.Failure? {
        return Fail(Misconfigured(repo.error)), items, order, coords, blocks, before;
      }
      r, items, order, coords, blocks, before := DeployEach(artifacts, repo.value);
    }

    /** Lines 174-183: collect the artifacts, then deploy them. */
    method Execute()
      returns (r: Outcome<DeployError>, ghost artifacts: set<Artifact>, items: seq<Artifact>, ghost order: seq<Artifact>,
               ghost coords: seq<Coordinate>, ghost blocks: seq<seq<Deployment>>, ghost before: seq<Fields>)
      requires Valid() && project.artifact !in project.attached
      requires forall a :: a in project.artifacts ==> a !in project.attached
      modifies this`pomFile, project.artifacts, project.artifact, deployer`published, project.attached
      ensures artifacts <= project.artifacts + {project.artifact}
      ensures !settings.deployDependencies ==> artifacts == {project.artifact}
      ensures Finished(artifacts, r, items, order, coords, blocks, before)
      ensures before == old(FieldsOf(items))
      ensures deployer.published == old(deployer.published) + Concat(blocks)
      ensures settings.skip || settings.offline || TargetRepository().Failure? ==> unchanged(artifacts)
    {
      var t := ArtifactSet();
      artifacts := t;
      r, items, order, coords, blocks, before := ExecuteWithArtifacts(t);
    }
  }
}
