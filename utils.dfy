/** caddygit's own encoding of references: a type word, the separator `|`,
    then a name ("tag|v1.2.3", "latest_commit|main", "latest_tag|"). */
module Utils {
  import opened Strings
  import Git

  const Separator: char := '|'

  /** A string claimed to hold an encoded reference; nothing forces it to be well formed. */
  type ReferenceName = string

  datatype ReferenceType = LatestCommit | LatestTag | Tag {
    /** The word the encoding starts with. */
    function Word(): (w: string)
      ensures |w| >= 3 && Separator !in w
    {
      match this
      case LatestCommit => "latest_commit"
      case LatestTag => "latest_tag"
      case Tag => "tag"
    }
  }

  /** The type word followed by the separator: what `isType` looks for. */
  function TypePrefix(typ: ReferenceType): string {
    typ.Word() + [Separator]
  }

  /** `newReferenceName`: the type word, the separator, then the name. */
  function NewReferenceName(name: string, typ: ReferenceType): (r: ReferenceName)
    ensures HasPrefix(r, TypePrefix(typ)) && r[|TypePrefix(typ)|..] == name
  {
    PrefixOfConcat(TypePrefix(typ), name);
    TypePrefix(typ) + name
  }

  /** `isType`: the string is the encoding, with this type, of whatever
      follows the type's prefix. */
  function IsType(r: ReferenceName, typ: ReferenceType): (b: bool)
    ensures b <==> |TypePrefix(typ)| <= |r| && NewReferenceName(r[|TypePrefix(typ)|..], typ) == r
  {
    var p := TypePrefix(typ);
    assert |p| <= |r| ==> r[..|p|] + r[|p|..] == r;
    HasPrefix(r, p)
  }

  /** `IsLatestCommit`: a latest-commit encoding of the text after its prefix. */
  function IsLatestCommit(r: ReferenceName): (b: bool)
    ensures b <==> |TypePrefix(LatestCommit)| <= |r| && NewReferenceName(r[|TypePrefix(LatestCommit)|..], LatestCommit) == r
  {
    IsType(r, LatestCommit)
  }

  /** `IsLatestTag`: a latest-tag encoding of the text after its prefix. */
  function IsLatestTag(r: ReferenceName): (b: bool)
    ensures b <==> |TypePrefix(LatestTag)| <= |r| && NewReferenceName(r[|TypePrefix(LatestTag)|..], LatestTag) == r
  {
    IsType(r, LatestTag)
  }

  /** `IsTag`: a tag encoding of the text after its prefix. */
  function IsTag(r: ReferenceName): (b: bool)
    ensures b <==> |TypePrefix(Tag)| <= |r| && NewReferenceName(r[|TypePrefix(Tag)|..], Tag) == r
  {
    IsType(r, Tag)
  }

  /** No string carries two type prefixes: "tag|" starts with 't' where the
      others start with 'l', and "latest_tag|" and "latest_commit|" differ at
      their eighth character. */
  lemma {:induction false} AtMostOneType(r: ReferenceName, a: ReferenceType, b: ReferenceType)
    requires IsType(r, a) && IsType(r, b)
    ensures a == b
  {
    assert r[..|TypePrefix(a)|][0] == r[0] == r[..|TypePrefix(b)|][0];
    if a != Tag && b != Tag {
      assert r[..|TypePrefix(a)|][7] == r[7] == r[..|TypePrefix(b)|][7];
    }
  }

  /** At most one of the three type predicates holds of any string. */
  lemma TypesExclusive(r: ReferenceName)
    ensures !(IsTag(r) && IsLatestTag(r))
    ensures !(IsTag(r) && IsLatestCommit(r))
    ensures !(IsLatestTag(r) && IsLatestCommit(r))
  {
    if IsTag(r) && IsLatestTag(r) { AtMostOneType(r, Tag, LatestTag); }
    if IsTag(r) && IsLatestCommit(r) { AtMostOneType(r, Tag, LatestCommit); }
    if IsLatestTag(r) && IsLatestCommit(r) { AtMostOneType(r, LatestTag, LatestCommit); }
  }

  /** Exactly the constructor's own type is recognised on a constructed name. */
  lemma {:induction false} ConstructedType(name: string, typ: ReferenceType, other: ReferenceType)
    ensures IsType(NewReferenceName(name, typ), other) <==> other == typ
  {
    if IsType(NewReferenceName(name, typ), other) {
      AtMostOneType(NewReferenceName(name, typ), typ, other);
    }
  }

  function NewLatestCommitReferenceName(name: string): (r: ReferenceName)
    ensures IsLatestCommit(r) && !IsLatestTag(r) && !IsTag(r)
  {
    ConstructedType(name, LatestCommit, LatestTag);
    ConstructedType(name, LatestCommit, Tag);
    NewReferenceName(name, LatestCommit)
  }

  function NewLatestTagReferenceName(name: string): (r: ReferenceName)
    ensures IsLatestTag(r) && !IsLatestCommit(r) && !IsTag(r)
  {
    ConstructedType(name, LatestTag, LatestCommit);
    ConstructedType(name, LatestTag, Tag);
    NewReferenceName(name, LatestTag)
  }

  function NewTagReferenceName(name: string): (r: ReferenceName)
    ensures IsTag(r) && !IsLatestCommit(r) && !IsLatestTag(r)
  {
    ConstructedType(name, Tag, LatestCommit);
    ConstructedType(name, Tag, LatestTag);
    NewReferenceName(name, Tag)
  }

  /** `Name`: the second `|`-separated piece. Go indexes the split result at
      1, which panics on a string without a separator; hence the precondition. */
  function Name(r: ReferenceName): (n: string)
    requires Separator in r
    ensures Separator !in n && |n| < |r|
  {
    SplitHasSeveralParts(r, Separator);
    SplitPieceShorter(r, Separator, 1);
    Split(r, Separator)[1]
  }

  /** Each piece of a split is shorter than a string that holds the separator. */
  lemma {:induction false} SplitPieceShorter(s: string, sep: char, i: nat)
    requires i < |Split(s, sep)| && sep in s
    ensures |Split(s, sep)[i]| < |s|
  {
    JoinSplit(s, sep);
    JoinPieceShorter(Split(s, sep), sep, i);
  }

  lemma {:induction false} JoinPieceShorter(parts: seq<string>, sep: char, i: nat)
    requires |parts| >= 2 && i < |parts|
    ensures |parts[i]| < |Join(parts, sep)|
    decreases |parts|
  {
    if i > 0 && |parts| > 2 {
      JoinPieceShorter(parts[1..], sep, i - 1);
    }
  }

  /** `Name` reads the piece between the first and the second separator,
      whatever follows. */
  lemma {:induction false} NameBetweenSeparators(prefix: string, n: string, rest: string)
    requires Separator !in prefix && Separator !in n
    ensures Name(prefix + [Separator] + n) == n
    ensures Name(prefix + [Separator] + n + [Separator] + rest) == n
  {
    SplitAtFirst(prefix, Separator, n);
    SplitNoSeparator(n, Separator);
    var s := prefix + [Separator] + n + [Separator] + rest;
    assert s == prefix + [Separator] + (n + [Separator] + rest);
    SplitAtFirst(prefix, Separator, n + [Separator] + rest);
    SplitAtFirst(n, Separator, rest);
  }

  /** `IsValid`: exactly two pieces, the first a type word. A valid string
      is recognised as one of the three types. */
  function IsValid(r: ReferenceName): (b: bool)
    ensures b ==> IsLatestCommit(r) || IsLatestTag(r) || IsTag(r)
  {
    var opts := Split(r, Separator);
    var valid := |opts| == 2 && (opts[0] == LatestCommit.Word() || opts[0] == LatestTag.Word() || opts[0] == Tag.Word());
    if valid then
      JoinSplit(r, Separator);
      assert r == (opts[0] + [Separator]) + opts[1];
      PrefixOfConcat(opts[0] + [Separator], opts[1]);
      true
    else false
  }

  /** The valid strings are exactly the constructed ones with a separator-free name. */
  lemma {:induction false} ValidIffConstructed(r: ReferenceName)
    ensures IsValid(r) <==> exists typ: ReferenceType, name: string :: Separator !in name && r == NewReferenceName(name, typ)
  {
    if IsValid(r) {
      var opts := Split(r, Separator);
      JoinSplit(r, Separator);
      assert r == opts[0] + [Separator] + opts[1];
      var typ := if opts[0] == LatestCommit.Word() then LatestCommit
                 else if opts[0] == LatestTag.Word() then LatestTag else Tag;
      assert r == NewReferenceName(opts[1], typ);
    }
    if exists typ: ReferenceType, name: string :: Separator !in name && r == NewReferenceName(name, typ) {
      var typ: ReferenceType, name: string :| Separator !in name && r == NewReferenceName(name, typ);
      SplitAtFirst(typ.Word(), Separator, name);
      SplitNoSeparator(name, Separator);
    }
  }

  /** A constructor applied to a separator-free name (the empty one included)
      gives a valid encoding from which `Name` recovers the name. */
  lemma {:induction false} ConstructedIsValid(name: string, typ: ReferenceType)
    requires Separator !in name
    ensures IsValid(NewReferenceName(name, typ))
    ensures Name(NewReferenceName(name, typ)) == name
  {
    ValidIffConstructed(NewReferenceName(name, typ));
    NameBetweenSeparators(typ.Word(), name, []);
  }

  /** Strings the encoding rejects: no separator, an unknown type word, a second separator. */
  lemma InvalidExamples()
    ensures !IsValid("") && !IsValid("abc") && !IsValid("x|y") && !IsValid("tag|a|b")
  {
    SplitNoSeparator("abc", Separator);
    SplitAtFirst("x", Separator, "y");
    SplitNoSeparator("y", Separator);
    assert "tag|a|b" == "tag" + [Separator] + ("a" + [Separator] + "b");
    SplitAtFirst("tag", Separator, "a|b");
    assert "a|b" == "a" + [Separator] + "b";
    SplitAtFirst("a", Separator, "b");
    SplitNoSeparator("b", Separator);
  }

  /** `GitReferenceName`: a tag encoding names `refs/tags/<name>`; the two
      branch-following types both name `refs/heads/<name>`. */
  function GitReferenceName(r: ReferenceName): (g: Git.RefName)
    requires Separator in r
    ensures Git.IsTag(g) <==> IsTag(r)
    ensures Git.IsBranch(g) <==> !IsTag(r)
    ensures Git.IsTag(g) ==> g[|Git.TagsPrefix|..] == Name(r)
    ensures Git.IsBranch(g) ==> g[|Git.HeadsPrefix|..] == Name(r)
  {
    if IsTag(r) then Git.NewTagReferenceName(Name(r))
    else Git.NewBranchReferenceName(Name(r))
  }

  lemma {:induction false} GitReferenceNameOfConstructed(name: string)
    requires Separator !in name
    ensures GitReferenceName(NewTagReferenceName(name)) == Git.NewTagReferenceName(name)
    ensures GitReferenceName(NewLatestTagReferenceName(name)) == Git.NewBranchReferenceName(name)
    ensures GitReferenceName(NewLatestCommitReferenceName(name)) == Git.NewBranchReferenceName(name)
  {
    ConstructedIsValid(name, Tag);
    ConstructedIsValid(name, LatestTag);
    ConstructedIsValid(name, LatestCommit);
  }
}
