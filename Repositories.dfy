/**
 * Choice of the repository a deployment run publishes to: the
 * `id::layout::url` override, else the project's distribution repository.
 *
 * The override is matched against the pattern `(.+)::(.+)::(.+)` with
 * `Matcher.matches()`, so the whole string must match. Here the pattern is
 * written as "the string can be split into three non-empty parts joined by
 * `::`, and no character is a line terminator (which `.` does not match)".
 * Among all such splits the matcher returns the one a greedy, backtracking
 * matcher finds first: the longest first part, then the longest second part.
 */
module Repositories {
  import opened Wrappers

  /** A deployment repository, as built by the repository factory. */
  datatype Repository = Repository(id: string, layout: string, url: string)

  /** Why no repository could be chosen. */
  datatype RepositoryError =
    | InvalidSyntax(spec: string)     // the override does not match id::layout::url
    | UnknownLayout(layout: string)   // the layout name has no registered layout
    | NotSpecified                    // neither an override nor a distribution repository
  {
    function Message(): string {
      match this
      case InvalidSyntax(_) => InvalidSyntaxHint
      case UnknownLayout(_) => ""   // the text comes from `getLayout`, which is not part of this model
      case NotSpecified => NotSpecifiedMessage
    }
  }

  const InvalidSyntaxHint := "Invalid syntax for alternative repository. Use \"id::layout::url\"."
  const NotSpecifiedMessage := "Deployment failed: repository element was not specified in the POM inside"
                               + " distributionManagement element or in -DaltDeploymentRepository=id::layout::url parameter"

  /** The characters that `.` in a Java pattern does not match (no DOTALL, no UNIX_LINES). */
  predicate IsLineTerminator(c: char) {
    c == '\n' || c == '\r' || c == '\U{85}' || c == '\U{2028}' || c == '\U{2029}'
  }

  predicate NoLineTerminator(s: string) {
    forall k :: 0 <= k < |s| ==> !IsLineTerminator(s[k])
  }

  /** The separator "::" starts at position k of s. */
  predicate SepAt(s: string, k: int) {
    0 <= k && k + 2 <= |s| && s[k] == ':' && s[k + 1] == ':'
  }

  /** s is matched by `(.+)::(.+)::(.+)` with the groups p1, p2 and p3. */
  predicate IsSplit(s: string, p1: string, p2: string, p3: string) {
    && |p1| > 0 && |p2| > 0 && |p3| > 0
    && s == p1 + "::" + p2 + "::" + p3
    && NoLineTerminator(s)
  }

  /** The three groups of a successful match, before trimming. */
  datatype Groups = Groups(id: string, layout: string, url: string)

  /** g is at least as long-first-part-then-long-second-part as the split (q1, q2, _). */
  predicate AtLeastAsGreedy(g: Groups, q1: string, q2: string) {
    |q1| < |g.id| || (|q1| == |g.id| && |q2| <= |g.layout|)
  }

  /** The last position k with lo <= k <= hi where "::" starts. */
  function LastSep(s: string, lo: int, hi: int): (r: Option<int>)
    ensures r.Some? ==> lo <= r.value <= hi && SepAt(s, r.value)
    ensures forall k :: lo <= k <= hi && SepAt(s, k) ==> r.Some? && k <= r.value
    decreases hi - lo
  {
    if hi < lo then None
    else if SepAt(s, hi) then Some(hi)
    else LastSep(s, lo, hi - 1)
  }

  lemma SplitAtSeparators(s: string, i: int, j: int)
    requires 1 <= i && i + 3 <= j && j + 3 <= |s|
    requires SepAt(s, i) && SepAt(s, j)
    ensures s == s[..i] + "::" + s[i + 2..j] + "::" + s[j + 2..]
  {
    assert s[i..i + 2] == "::";
    assert s[j..j + 2] == "::";
    calc {
      s;
      s[..i] + s[i..i + 2] + s[i + 2..j] + s[j..j + 2] + s[j + 2..];
    }
  }

  /**
   * The groups of `(.+)::(.+)::(.+)` matched against the whole of s, or None.
   * The second separator is the last one that leaves a non-empty third group;
   * the first is the last one before it that leaves non-empty first and
   * second groups.
   */
  function MatchAltSyntax(s: string): (r: Option<Groups>)
    ensures r.Some? ==> IsSplit(s, r.value.id, r.value.layout, r.value.url)
  {
    if !NoLineTerminator(s) then None
    else match LastSep(s, 4, |s| - 3)
      case None => None
      case Some(j) =>
        match LastSep(s, 1, j - 3)
        case None => None
        case Some(i) =>
          SplitAtSeparators(s, i, j);
          Some(Groups(s[..i], s[i + 2..j], s[j + 2..]))
  }

  /** The separators of a split sit where the part lengths say. */
  lemma SplitSeparators(s: string, p1: string, p2: string, p3: string)
    requires IsSplit(s, p1, p2, p3)
    ensures SepAt(s, |p1|) && SepAt(s, |p1| + 2 + |p2|)
    ensures 1 <= |p1| && |p1| + 3 <= |p1| + 2 + |p2| && |p1| + 2 + |p2| + 3 <= |s|
  {
    var i, j := |p1|, |p1| + 2 + |p2|;
    assert s[i] == ':' && s[i + 1] == ':';
    assert s[j] == ':' && s[j + 1] == ':';
  }

  /** Two splits with equal part lengths are the same split. */
  lemma SplitDeterminedByLengths(s: string, p1: string, p2: string, p3: string,
                                 q1: string, q2: string, q3: string)
    requires IsSplit(s, p1, p2, p3) && IsSplit(s, q1, q2, q3)
    requires |p1| == |q1| && |p2| == |q2|
    ensures p1 == q1 && p2 == q2 && p3 == q3
  {
    assert p1 == s[..|p1|] && q1 == s[..|q1|];
    assert p2 == s[|p1| + 2..|p1| + 2 + |p2|] && q2 == s[|q1| + 2..|q1| + 2 + |q2|];
    assert p3 == s[|p1| + 4 + |p2|..] && q3 == s[|q1| + 4 + |q2|..];
  }

  /**
   * The match succeeds on every string that has a split, and what it
   * returns is the greediest split: no split has a longer first group, and
   * none with the same first group has a longer second group.
   */
  lemma {:induction false} MatchAltSyntaxComplete(s: string, q1: string, q2: string, q3: string)
    requires IsSplit(s, q1, q2, q3)
    ensures MatchAltSyntax(s).Some?
    ensures AtLeastAsGreedy(MatchAltSyntax(s).value, q1, q2)
  {
    SplitSeparators(s, q1, q2, q3);
    var j' := |q1| + 2 + |q2|;
    var j := LastSep(s, 4, |s| - 3).value;
    assert j' <= j;
    var i := LastSep(s, 1, j - 3).value;
    assert |q1| <= i;
  }

  /** The match succeeds exactly on the strings that have a split. */
  lemma MatchAltSyntaxIff(s: string)
    ensures MatchAltSyntax(s).Some? <==> exists p1, p2, p3 :: IsSplit(s, p1, p2, p3)
  {
    if MatchAltSyntax(s).Some? {
      var g := MatchAltSyntax(s).value;
      assert IsSplit(s, g.id, g.layout, g.url);
    } else if p1, p2, p3 :| IsSplit(s, p1, p2, p3) {
      MatchAltSyntaxComplete(s, p1, p2, p3);
    }
  }

  /** A split that no other split beats, part by part in match order. */
  ghost predicate IsGreediestSplit(s: string, p1: string, p2: string, p3: string) {
    && IsSplit(s, p1, p2, p3)
    && forall q1, q2, q3 :: IsSplit(s, q1, q2, q3) ==> AtLeastAsGreedy(Groups(p1, p2, p3), q1, q2)
  }

  /** What the match returns is the greediest split, and that split is unique. */
  lemma MatchIsGreediestSplit(s: string, p1: string, p2: string, p3: string)
    requires IsGreediestSplit(s, p1, p2, p3)
    ensures MatchAltSyntax(s) == Some(Groups(p1, p2, p3))
  {
    MatchAltSyntaxComplete(s, p1, p2, p3);
    var g := MatchAltSyntax(s).value;
    assert AtLeastAsGreedy(Groups(p1, p2, p3), g.id, g.layout);
    SplitDeterminedByLengths(s, p1, p2, p3, g.id, g.layout, g.url);
  }

  /** Java's `String.trim`: whitespace counts as every character up to U+0020. */
  predicate IsTrimmed(c: char) {
    c <= ' '
  }

  /** The first index from i on that is not whitespace, or |s| if there is none. */
  function TrimStart(s: string, i: nat): (st: nat)
    requires i <= |s|
    ensures i <= st <= |s|
    ensures forall k :: i <= k < st ==> IsTrimmed(s[k])
    ensures st == |s| || !IsTrimmed(s[st])
    decreases |s| - i
  {
    if i < |s| && IsTrimmed(s[i]) then TrimStart(s, i + 1) else i
  }

  /** Walking down from j to lo, the first end index whose last character is not whitespace, or lo. */
  function TrimEnd(s: string, lo: nat, j: nat): (en: nat)
    requires lo <= j <= |s|
    ensures lo <= en <= j
    ensures forall k :: en <= k < j ==> IsTrimmed(s[k])
    ensures en == lo || !IsTrimmed(s[en - 1])
  {
    if j > lo && IsTrimmed(s[j - 1]) then TrimEnd(s, lo, j - 1) else j
  }

  /** The number of leading characters that trimming removes. */
  function TrimOffset(s: string): (o: nat)
    ensures o <= |s|
  {
    TrimStart(s, 0)
  }

  /**
   * s without its leading and trailing whitespace: what is left is the part
   * of s between two runs of whitespace, and neither end of it is whitespace.
   */
  function Trim(s: string): (r: string)
    ensures TrimOffset(s) + |r| <= |s| && r == s[TrimOffset(s)..TrimOffset(s) + |r|]
    ensures forall k :: 0 <= k < TrimOffset(s) ==> IsTrimmed(s[k])
    ensures forall k :: TrimOffset(s) + |r| <= k < |s| ==> IsTrimmed(s[k])
    ensures r == [] || (!IsTrimmed(r[0]) && !IsTrimmed(r[|r| - 1]))
  {
    var st := TrimStart(s, 0);
    s[st..TrimEnd(s, st, |s|)]
  }

  /** A field of whitespace only is trimmed to the empty string, not rejected. */
  lemma TrimBlank(s: string)
    requires forall k :: 0 <= k < |s| ==> IsTrimmed(s[k])
    ensures Trim(s) == []
  {
  }

  /** A string with no whitespace at either end is left as it is. */
  lemma TrimUntouched(s: string)
    requires s == [] || (!IsTrimmed(s[0]) && !IsTrimmed(s[|s| - 1]))
    ensures Trim(s) == s
  {
  }

  /**
   * `getDeploymentRepository`: the override, when given, must match and its
   * trimmed layout must be known; only without an override is the project's
   * distribution repository used; with neither there is no repository.
   */
  function DeploymentRepository(altDeploymentRepository: Option<string>,
                                distribution: Option<Repository>,
                                knownLayouts: set<string>): (r: Result<Repository, RepositoryError>)
    ensures altDeploymentRepository.None? && distribution.Some? ==> r == Success(distribution.value)
    ensures altDeploymentRepository.None? && distribution.None? ==> r == Failure(NotSpecified)
    ensures altDeploymentRepository.Some? && r.Success? ==>
              exists p1, p2, p3 :: IsSplit(altDeploymentRepository.value, p1, p2, p3)
                                   && r.value == Repository(Trim(p1), Trim(p2), Trim(p3))
    ensures altDeploymentRepository.Some? && r.Success? ==> r.value.layout in knownLayouts
    ensures altDeploymentRepository.Some? && r.Failure? ==>
              r.error == InvalidSyntax(altDeploymentRepository.value) || r.error.UnknownLayout?
    ensures altDeploymentRepository.Some? ==>
              (r == Failure(InvalidSyntax(altDeploymentRepository.value)) <==>
               !exists p1, p2, p3 :: IsSplit(altDeploymentRepository.value, p1, p2, p3))
    ensures altDeploymentRepository.Some? && r.Failure? && r.error.UnknownLayout? ==>
              r.error.layout !in knownLayouts && exists p1, p2, p3 :: IsSplit(altDeploymentRepository.value, p1, p2, p3)
  {
    if altDeploymentRepository.Some? then
      MatchAltSyntaxIff(altDeploymentRepository.value);
      match MatchAltSyntax(altDeploymentRepository.value)
      case None => Failure(InvalidSyntax(altDeploymentRepository.value))
      case Some(g) =>
        var id, layout, url := Trim(g.id), Trim(g.layout), Trim(g.url);
        if layout in knownLayouts then Success(Repository(id, layout, url))
        else Failure(UnknownLayout(layout))
    else if distribution.Some? then Success(distribution.value)
    else Failure(NotSpecified)
  }

  /**
   * An override that matches with the greediest split p1::p2::p3 gives the
   * repository trim(p1)/trim(p2)/trim(p3), whatever the distribution
   * repository is: that one is not consulted.
   */
  lemma AltRepositoryOverrides(s: string, p1: string, p2: string, p3: string,
                               distribution: Option<Repository>, knownLayouts: set<string>)
    requires IsGreediestSplit(s, p1, p2, p3)
    requires Trim(p2) in knownLayouts
    ensures DeploymentRepository(Some(s), distribution, knownLayouts)
            == Success(Repository(Trim(p1), Trim(p2), Trim(p3)))
  {
    MatchIsGreediestSplit(s, p1, p2, p3);
  }

  /**
   * An override whose greediest split p1::p2::p3 has a trimmed layout that
   * is not known fails on that layout, whatever the distribution repository is.
   */
  lemma AltRepositoryUnknownLayout(s: string, p1: string, p2: string, p3: string,
                                   distribution: Option<Repository>, knownLayouts: set<string>)
    requires IsGreediestSplit(s, p1, p2, p3)
    requires Trim(p2) !in knownLayouts
    ensures DeploymentRepository(Some(s), distribution, knownLayouts) == Failure(UnknownLayout(Trim(p2)))
  {
    MatchIsGreediestSplit(s, p1, p2, p3);
  }

  /** An override that cannot be split into three non-empty parts fails with the syntax hint. */
  lemma AltRepositoryRejected(s: string, distribution: Option<Repository>, knownLayouts: set<string>)
    requires forall p1, p2, p3 :: !IsSplit(s, p1, p2, p3)
    ensures DeploymentRepository(Some(s), distribution, knownLayouts) == Failure(InvalidSyntax(s))
    ensures DeploymentRepository(Some(s), distribution, knownLayouts).error.Message() == InvalidSyntaxHint
  {
    MatchAltSyntaxIff(s);
  }

  /** No "::" occurs in x. */
  predicate NoSep(x: string) {
    forall k :: 0 <= k < |x| - 1 ==> !(x[k] == ':' && x[k + 1] == ':')
  }

  /**
   * When neither the layout nor the url part contains "::" or starts with
   * ':', the split p1::p2::p3 is the one the match returns, whatever p1 holds.
   */
  lemma UnambiguousSplit(s: string, p1: string, p2: string, p3: string)
    requires IsSplit(s, p1, p2, p3)
    requires NoSep(p2) && NoSep(p3) && p2[0] != ':' && p3[0] != ':'
    ensures IsGreediestSplit(s, p1, p2, p3)
  {
    var j := |p1| + 2 + |p2|;
    assert forall k :: |p1| < k && SepAt(s, k) ==> k == j - 1 || k == j;
    forall q1, q2, q3 | IsSplit(s, q1, q2, q3) ensures AtLeastAsGreedy(Groups(p1, p2, p3), q1, q2) {
      SplitSeparators(s, q1, q2, q3);
    }
  }

  lemma NoSepWithoutColon(x: string)
    requires ':' !in x
    ensures NoSep(x)
  {
    forall k | 0 <= k < |x| - 1 ensures x[k] != ':' {
      assert x[k] in x;
    }
  }

  lemma NoSepConcat(a: string, b: string)
    requires NoSep(a) && NoSep(b)
    requires a == [] || b == [] || a[|a| - 1] != ':' || b[0] != ':'
    ensures NoSep(a + b)
  {
    var ab := a + b;
    forall k | 0 <= k < |ab| - 1 ensures !(ab[k] == ':' && ab[k + 1] == ':') {
      if k + 1 < |a| {
        assert ab[k] == a[k] && ab[k + 1] == a[k + 1];
      } else if k >= |a| {
        assert ab[k] == b[k - |a|] && ab[k + 1] == b[k + 1 - |a|];
      }
    }
  }

  lemma NoLineTerminatorByMembership(x: string)
    requires '\n' !in x && '\r' !in x && '\U{85}' !in x && '\U{2028}' !in x && '\U{2029}' !in x
    ensures NoLineTerminator(x)
  {
    forall k | 0 <= k < |x| ensures !IsLineTerminator(x[k]) {
      assert x[k] in x;
    }
  }
}
