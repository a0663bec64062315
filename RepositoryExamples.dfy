/** The override strings used as examples of the id::layout::url syntax. */
module RepositoryExamples {
  import opened Wrappers
  import opened Repositories

  /** Every extra separator goes to the id: `a::b::c::d` is id `a::b`, layout `c`, url `d`. */
  lemma ExtraSeparatorsGoToId()
    ensures MatchAltSyntax("a::b::c::d") == Some(Groups("a::b", "c", "d"))
  {
    var s := "a::b::c::d";
    NoLineTerminatorByMembership(s);
    assert SepAt(s, 7) && SepAt(s, 4);
    assert s[..4] == "a::b" && s[6..7] == "c" && s[9..] == "d";
  }

  /** A single separator, as in `internal::https://repo.example.com`, is rejected. */
  lemma SingleSeparatorRejected(distribution: Option<Repository>, knownLayouts: set<string>)
    ensures DeploymentRepository(Some("internal::https://repo.example.com"), distribution, knownLayouts)
            == Failure(InvalidSyntax("internal::https://repo.example.com"))
  {
    var s := "internal::https://repo.example.com";
    forall p1, p2, p3 | IsSplit(s, p1, p2, p3) ensures false {
      SplitSeparators(s, p1, p2, p3);
    }
    AltRepositoryRejected(s, distribution, knownLayouts);
  }

  /** The example override splits, unambiguously, into its three visible parts. */
  lemma WellFormedSplit()
    ensures IsGreediestSplit(WellFormed, "ci", "default", Url)
  {
    WellFormedOneLine();
    UrlWithoutSeparator();
    NoSepWithoutColon("default");
    WellFormedParts();
    UnambiguousSplit(WellFormed, "ci", "default", Url);
  }

  /** The override used in the examples below, and its url part. */
  const WellFormed := "ci::default::http://h/r"
  const Url := "http://h/r"

  lemma WellFormedParts()
    ensures WellFormed == "ci" + "::" + "default" + "::" + Url
  {
    assert "ci" + "::" + "default" + "::" == "ci::default::";
    assert "ci::default::" + Url == WellFormed;
  }

  lemma WellFormedOneLine()
    ensures NoLineTerminator(WellFormed)
  {
    NoLineTerminatorByIndex("ci::default::");
    NoLineTerminatorByIndex(Url);
    NoLineTerminatorConcat("ci::default::", Url);
    assert "ci::default::" + Url == WellFormed;
  }

  lemma NoLineTerminatorByIndex(x: string)
    requires forall k :: 0 <= k < |x| ==> x[k] != '\n' && x[k] != '\r' && x[k] != '\U{85}' && x[k] != '\U{2028}' && x[k] != '\U{2029}'
    ensures NoLineTerminator(x)
  {
  }

  lemma NoLineTerminatorConcat(a: string, b: string)
    requires NoLineTerminator(a) && NoLineTerminator(b)
    ensures NoLineTerminator(a + b)
  {
    var ab := a + b;
    forall k | 0 <= k < |ab| ensures !IsLineTerminator(ab[k]) {
      if k < |a| { assert ab[k] == a[k]; } else { assert ab[k] == b[k - |a|]; }
    }
  }

  lemma UrlWithoutSeparator()
    ensures NoSep(Url)
  {
    NoSepWithoutColon("http");
    NoSepConcat("http", ":");
    NoSepWithoutColon("//h/r");
    NoSepConcat("http:", "//h/r");
    assert "http:" + "//h/r" == Url;
  }

  /** The example override gives id, layout and url as written; the distribution repository is not used. */
  lemma WellFormedOverride(distribution: Option<Repository>)
    ensures DeploymentRepository(Some(WellFormed), distribution, {"default"})
            == Success(Repository("ci", "default", Url))
  {
    WellFormedSplit();
    TrimUntouched("ci");
    TrimUntouched("default");
    TrimUntouched(Url);
    AltRepositoryOverrides(WellFormed, "ci", "default", Url, distribution, {"default"});
  }
}
