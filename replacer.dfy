/** The `git.ref.*` placeholders: a placeholder key is resolved to an encoded
    reference, or refused (Go's `("", false)`, here `None`). */
module Replacer {
  import opened Wrappers
  import opened Strings
  import opened Utils

  const RefPrefix: string := "git.ref."
  const RefBranchPrefix: string := RefPrefix + "branch."
  const RefTagPrefix: string := RefPrefix + "tag."
  const LatestTagSuffix: string := ".latest_tag"
  const LatestCommitSuffix: string := ".latest_commit"

  /** The encoded reference a resolved key yields always carries one of the three type prefixes. */
  predicate IsEncoded(v: string) {
    IsTag(v) || IsLatestTag(v) || IsLatestCommit(v)
  }

  /** `gitReplacerFunc`: only keys under `git.ref.` are looked at. */
  function GitReplacerFunc(key: string): (r: Option<string>)
    ensures !HasPrefix(key, RefPrefix) ==> r == None
    ensures r.Some? ==> IsEncoded(r.value)
  {
    if HasPrefix(key, RefPrefix) then GitRefReplacerFunc(key) else None
  }

  /** A key that starts with `git.ref.` and ends with one of the two suffixes
      cannot have them overlap by more than the shared dot: the suffix's
      second character 'l' occurs nowhere in "git.ref". */
  lemma {:induction false} SuffixAfterRefPrefix(key: string, suffix: string)
    requires HasPrefix(key, RefPrefix) && HasSuffix(key, suffix)
    requires |suffix| >= 2 && suffix[1] == 'l'
    ensures |key| >= |RefPrefix| - 1 + |suffix|
  {
  }

  /** `gitRefReplacerFunc`. Its only caller guarantees the `git.ref.` prefix,
      which the last two forms need for their slices to be in bounds. */
  function GitRefReplacerFunc(key: string): (r: Option<string>)
    requires HasPrefix(key, RefPrefix)
    ensures r.Some? ==> IsEncoded(r.value)
  {
    if HasPrefix(key, RefTagPrefix) then
      var tagName := key[|RefTagPrefix|..];
      if tagName == "" then None else Some(NewTagReferenceName(tagName))
    else if HasPrefix(key, RefBranchPrefix) then
      if HasSuffix(key, LatestTagSuffix) then
        var branchName := key[..|key| - |LatestTagSuffix|];
        if |branchName| <= |RefBranchPrefix| then None
        else Some(NewLatestTagReferenceName(branchName[|RefBranchPrefix|..]))
      else if HasSuffix(key, LatestCommitSuffix) then
        var branchName := key[..|key| - |LatestCommitSuffix|];
        if |branchName| <= |RefBranchPrefix| then None
        else Some(NewLatestCommitReferenceName(branchName[|RefBranchPrefix|..]))
      else
        Some(NewLatestCommitReferenceName(key[|RefBranchPrefix|..]))
    else if HasSuffix(key, LatestTagSuffix) then
      SuffixAfterRefPrefix(key, LatestTagSuffix);
      var branchName := key[..|key| - |LatestTagSuffix|][|RefPrefix| - 1..];
      if branchName != "" then None else Some(NewLatestTagReferenceName(""))
    else if HasSuffix(key, LatestCommitSuffix) then
      SuffixAfterRefPrefix(key, LatestCommitSuffix);
      var branchName := key[..|key| - |LatestCommitSuffix|][|RefPrefix| - 1..];
      if branchName != "" then None else Some(NewLatestCommitReferenceName(""))
    else None
  }

  /** `git.ref.tag.<t>` names the tag `t`, dots and all; an empty `t` is refused. */
  lemma TagKeys(t: string)
    ensures GitReplacerFunc(RefTagPrefix + t) == if t == "" then None else Some(NewTagReferenceName(t))
  {
    PrefixOfConcat(RefTagPrefix, t);
    assert (RefTagPrefix + t)[..|RefPrefix|] == RefPrefix;
  }

  /** `git.ref.branch.<b>.latest_tag` follows the latest tag on branch `b`;
      an empty `b` is refused. */
  lemma BranchLatestTagKeys(b: string)
    ensures GitReplacerFunc(RefBranchPrefix + b + LatestTagSuffix) ==
            if b == "" then None else Some(NewLatestTagReferenceName(b))
  {
    var key := RefBranchPrefix + b + LatestTagSuffix;
    assert key[..|RefPrefix|] == RefPrefix;
    assert key[..|RefBranchPrefix|] == RefBranchPrefix;
    assert key[..|RefTagPrefix|] != RefTagPrefix by {
      assert key[..|RefTagPrefix|][8] == 'b';
    }
    assert key[|key| - |LatestTagSuffix|..] == LatestTagSuffix;
    assert key[..|key| - |LatestTagSuffix|] == RefBranchPrefix + b;
    assert (RefBranchPrefix + b)[|RefBranchPrefix|..] == b;
  }

  /** `git.ref.branch.<b>.latest_commit` follows the newest commit on branch
      `b`; an empty `b` is refused. */
  lemma BranchLatestCommitKeys(b: string)
    ensures GitReplacerFunc(RefBranchPrefix + b + LatestCommitSuffix) ==
            if b == "" then None else Some(NewLatestCommitReferenceName(b))
  {
    var key := RefBranchPrefix + b + LatestCommitSuffix;
    assert key[..|RefPrefix|] == RefPrefix;
    assert key[..|RefBranchPrefix|] == RefBranchPrefix;
    assert key[..|RefTagPrefix|] != RefTagPrefix by {
      assert key[..|RefTagPrefix|][8] == 'b';
    }
    assert !HasSuffix(key, LatestTagSuffix) by {
      assert key[|key| - 1] == 't';
    }
    assert key[|key| - |LatestCommitSuffix|..] == LatestCommitSuffix;
    assert key[..|key| - |LatestCommitSuffix|] == RefBranchPrefix + b;
    assert (RefBranchPrefix + b)[|RefBranchPrefix|..] == b;
  }

  /** `git.ref.branch.<b>` without either suffix also follows the newest commit
      on `b`, and here an empty `b` is accepted. */
  lemma PlainBranchKeys(b: string)
    requires !HasSuffix(RefBranchPrefix + b, LatestTagSuffix)
    requires !HasSuffix(RefBranchPrefix + b, LatestCommitSuffix)
    ensures GitReplacerFunc(RefBranchPrefix + b) == Some(NewLatestCommitReferenceName(b))
  {
    var key := RefBranchPrefix + b;
    assert key[..|RefPrefix|] == RefPrefix;
    assert key[..|RefBranchPrefix|] == RefBranchPrefix;
    assert key[..|RefTagPrefix|] != RefTagPrefix by {
      assert key[..|RefTagPrefix|][8] == 'b';
    }
    assert key[|RefBranchPrefix|..] == b;
  }

  /** The text the default forms inspect, between "git.ref" and the suffix,
      is empty exactly for the key "git.ref" followed by the suffix. */
  lemma {:induction false} DefaultKeyExact(key: string, suffix: string)
    requires HasPrefix(key, RefPrefix) && HasSuffix(key, suffix)
    requires |suffix| >= 2 && suffix[1] == 'l'
    ensures |key| - |suffix| >= |RefPrefix| - 1
    ensures key[..|key| - |suffix|][|RefPrefix| - 1..] == "" <==> key == "git.ref" + suffix
  {
    SuffixAfterRefPrefix(key, suffix);
    if |key| == |RefPrefix| - 1 + |suffix| {
      assert key[..|RefPrefix| - 1] == key[..|RefPrefix|][..|RefPrefix| - 1];
      assert key == key[..|RefPrefix| - 1] + key[|RefPrefix| - 1..];
    }
  }

  /** Under `git.ref.` but neither a tag nor a branch key, only the two exact
      keys `git.ref.latest_tag` and `git.ref.latest_commit` resolve, to the
      encodings with an empty name. */
  lemma {:induction false} DefaultKeys(key: string)
    requires HasPrefix(key, RefPrefix)
    requires !HasPrefix(key, RefTagPrefix) && !HasPrefix(key, RefBranchPrefix)
    ensures GitReplacerFunc(key) ==
            if key == "git.ref" + LatestTagSuffix then Some(NewLatestTagReferenceName(""))
            else if key == "git.ref" + LatestCommitSuffix then Some(NewLatestCommitReferenceName(""))
            else None
  {
    if HasSuffix(key, LatestTagSuffix) {
      DefaultTagSuffixed(key);
    } else if HasSuffix(key, LatestCommitSuffix) {
      DefaultKeyExact(key, LatestCommitSuffix);
    } else {
      assert HasSuffix("git.ref" + LatestTagSuffix, LatestTagSuffix);
      assert HasSuffix("git.ref" + LatestCommitSuffix, LatestCommitSuffix);
    }
  }

  lemma DefaultTagSuffixed(key: string)
    requires HasPrefix(key, RefPrefix) && HasSuffix(key, LatestTagSuffix)
    ensures |key| - |LatestTagSuffix| >= |RefPrefix| - 1
    ensures key[..|key| - |LatestTagSuffix|][|RefPrefix| - 1..] == "" <==> key == "git.ref" + LatestTagSuffix
    ensures key != "git.ref" + LatestCommitSuffix
  {
    DefaultKeyExact(key, LatestTagSuffix);
    assert key[|key| - 1] == LatestTagSuffix[|LatestTagSuffix| - 1];
  }

  /** The default-branch latest-commit placeholder the package's tests resolve. */
  lemma DefaultCommitExample()
    ensures GitReplacerFunc("git.ref.latest_commit") == Some(NewLatestCommitReferenceName(""))
  {
    var key := "git.ref.latest_commit";
    assert key == "git.ref" + LatestCommitSuffix;
    assert key[..|RefTagPrefix|][8] != RefTagPrefix[8];
    assert key[..|RefBranchPrefix|][8] != RefBranchPrefix[8];
    DefaultKeys(key);
  }

  /** The default-branch latest-tag placeholder the package's tests resolve. */
  lemma DefaultTagExample()
    ensures GitReplacerFunc("git.ref.latest_tag") == Some(NewLatestTagReferenceName(""))
  {
    var key := "git.ref.latest_tag";
    assert key == "git.ref" + LatestTagSuffix;
    assert key[..|RefTagPrefix|][8] != RefTagPrefix[8];
    assert key[..|RefBranchPrefix|][8] != RefBranchPrefix[8];
    DefaultKeys(key);
  }

  /** `git.ref.branch.abc`, as the package's tests resolve it. */
  lemma PlainBranchExample()
    ensures GitReplacerFunc("git.ref.branch.abc") == Some(NewLatestCommitReferenceName("abc"))
  {
    assert "git.ref.branch.abc" == RefBranchPrefix + "abc";
    PlainBranchKeys("abc");
  }

  /** `git.ref.branch.abc.latest_commit`, as the package's tests resolve it. */
  lemma BranchCommitExample()
    ensures GitReplacerFunc("git.ref.branch.abc.latest_commit") == Some(NewLatestCommitReferenceName("abc"))
  {
    calc {
      GitReplacerFunc("git.ref.branch.abc.latest_commit");
    == { assert "git.ref.branch.abc.latest_commit" == RefBranchPrefix + "abc" + LatestCommitSuffix; }
      GitReplacerFunc(RefBranchPrefix + "abc" + LatestCommitSuffix);
    == { BranchLatestCommitKeys("abc"); }
      Some(NewLatestCommitReferenceName("abc"));
    }
  }

  /** `git.ref.branch.abc.latest_tag`, as the package's tests resolve it. */
  lemma BranchTagExample()
    ensures GitReplacerFunc("git.ref.branch.abc.latest_tag") == Some(NewLatestTagReferenceName("abc"))
  {
    calc {
      GitReplacerFunc("git.ref.branch.abc.latest_tag");
    == { assert "git.ref.branch.abc.latest_tag" == RefBranchPrefix + "abc" + LatestTagSuffix; }
      GitReplacerFunc(RefBranchPrefix + "abc" + LatestTagSuffix);
    == { BranchLatestTagKeys("abc"); }
      Some(NewLatestTagReferenceName("abc"));
    }
  }

  /** `git.ref.tag.v1.2.3`, as the package's tests resolve it. */
  lemma TagExample()
    ensures GitReplacerFunc("git.ref.tag.v1.2.3") == Some(NewTagReferenceName("v1.2.3"))
  {
    assert "git.ref.tag.v1.2.3" == RefTagPrefix + "v1.2.3";
    TagKeys("v1.2.3");
  }

  /** Placeholders the package's tests expect to be refused: a tag or branch
      key with nothing after it. */
  lemma RefusedExamples()
    ensures GitReplacerFunc("git.ref.tag") == None
    ensures GitReplacerFunc("git.ref.tag.") == None
    ensures GitReplacerFunc("git.ref.branch") == None
  {
    assert "git.ref.tag." == RefTagPrefix + "";
    TagKeys("");
    assert |RefTagPrefix| == 12 && |RefBranchPrefix| == 15;
    assert "git.ref.branch"[..|RefTagPrefix|][8] != RefTagPrefix[8];
    DefaultKeys("git.ref.tag");
    DefaultKeys("git.ref.branch");
  }

  /** A suffixed branch key whose branch name is empty is refused, as the
      package's tests expect for `git.ref.branch.latest_commit` and
      `git.ref.branch.latest_tag` (the suffix's dot is the branch prefix's). */
  lemma {:induction false} EmptySuffixedBranchRefused(suffix: string)
    requires suffix == LatestTagSuffix || suffix == LatestCommitSuffix
    ensures GitReplacerFunc("git.ref.branch" + suffix) == None
  {
    var key := "git.ref.branch" + suffix;
    assert key[..|RefPrefix|] == RefPrefix;
    assert key[..|RefBranchPrefix|] == RefBranchPrefix;
    assert key[..|RefTagPrefix|][8] != RefTagPrefix[8];
    assert key[|key| - |suffix|..] == suffix;
    if suffix == LatestCommitSuffix {
      assert key[|key| - 1] != LatestTagSuffix[|LatestTagSuffix| - 1];
    }
  }
}
