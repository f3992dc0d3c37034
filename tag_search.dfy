/** The latest-tag search every repository generation performs once the
    branch is checked out: fill a hash-to-tag map from the tag list, then walk
    the commit log (newest first) and stop at the first commit that has a tag. */
module TagSearch {
  import opened Wrappers
  import opened Git

  /** The map the tag loop leaves behind: a hash is mapped to the name of the
      last tag listed for it, since each later entry overwrites. */
  function TagMap(tags: seq<TagRef>): (m: map<Hash, RefName>)
    ensures forall h :: h in m <==> exists j :: 0 <= j < |tags| && tags[j].hash == h
    decreases |tags|
  {
    if tags == [] then map[]
    else
      var last := tags[|tags| - 1];
      var m' := TagMap(tags[..|tags| - 1]);
      assert forall j :: 0 <= j < |tags| - 1 ==> tags[..|tags| - 1][j] == tags[j];
      m'[last.hash := last.name]
  }

  /** Which tag a hash maps to: the last listed for it. */
  lemma {:induction false} TagMapLastWins(tags: seq<TagRef>, j: nat)
    requires j < |tags|
    requires forall k :: j < k < |tags| ==> tags[k].hash != tags[j].hash
    ensures tags[j].hash in TagMap(tags) && TagMap(tags)[tags[j].hash] == tags[j].name
    decreases |tags|
  {
    if j < |tags| - 1 {
      var init := tags[..|tags| - 1];
      assert init[j] == tags[j];
      TagMapLastWins(init, j);
    }
  }

  /** The name of the first commit in `log` that has an entry in `m`. */
  function FirstTagged(m: map<Hash, RefName>, log: seq<Hash>): (r: Option<RefName>)
    ensures r == None <==> forall i :: 0 <= i < |log| ==> log[i] !in m
    ensures r.Some? ==> exists i :: 0 <= i < |log| && log[i] in m && m[log[i]] == r.value
                                    && forall k :: 0 <= k < i ==> log[k] !in m
    decreases |log|
  {
    if log == [] then None
    else if log[0] in m then Some(m[log[0]])
    else
      var r := FirstTagged(m, log[1..]);
      assert forall i :: 1 <= i < |log| ==> log[1..][i - 1] == log[i];
      r
  }

  /** The tag the search selects: it is `None` exactly when no commit in the
      log carries a tag, and otherwise the last-listed tag of the newest
      tagged commit. */
  lemma {:induction false} LatestTagChoice(tags: seq<TagRef>, log: seq<Hash>)
    ensures FirstTagged(TagMap(tags), log) == None <==>
            forall i, j :: 0 <= i < |log| && 0 <= j < |tags| ==> log[i] != tags[j].hash
    ensures FirstTagged(TagMap(tags), log).Some? ==>
            exists i, j :: 0 <= i < |log| && 0 <= j < |tags| && log[i] == tags[j].hash
              && tags[j].name == FirstTagged(TagMap(tags), log).value
              && (forall k, l :: 0 <= k < i && 0 <= l < |tags| ==> log[k] != tags[l].hash)
              && (forall l :: j < l < |tags| ==> tags[l].hash != tags[j].hash)
  {
    var m := TagMap(tags);
    var r := FirstTagged(m, log);
    if r.Some? {
      var i :| 0 <= i < |log| && log[i] in m && m[log[i]] == r.value
               && forall k :: 0 <= k < i ==> log[k] !in m;
      var j := LastWithHash(tags, log[i]);
      TagMapLastWins(tags, j);
      assert forall k, l :: 0 <= k < i && 0 <= l < |tags| ==> log[k] != tags[l].hash by {
        forall k, l | 0 <= k < i && 0 <= l < |tags| ensures log[k] != tags[l].hash {
          assert log[k] !in m;
        }
      }
    }
  }

  /** The index of the last tag listed for `h`. */
  lemma LastWithHash(tags: seq<TagRef>, h: Hash) returns (j: nat)
    requires exists j :: 0 <= j < |tags| && tags[j].hash == h
    ensures j < |tags| && tags[j].hash == h
    ensures forall k :: j < k < |tags| ==> tags[k].hash != h
  {
    j := |tags| - 1;
    while tags[j].hash != h
      invariant 0 <= j < |tags|
      invariant forall k :: j < k < |tags| ==> tags[k].hash != h
      invariant exists k :: 0 <= k <= j && tags[k].hash == h
      decreases j
    {
      j := j - 1;
    }
  }

  /** The two loops of `getLatestTag`: the map fill and the stopping walk. */
  method LatestTag(tags: seq<TagRef>, log: seq<Hash>) returns (tag: Option<RefName>)
    ensures tag == FirstTagged(TagMap(tags), log)
  {
    var tagsMap: map<Hash, RefName> := map[];
    var i := 0;
    while i < |tags|
      invariant 0 <= i <= |tags|
      invariant tagsMap == TagMap(tags[..i])
    {
      assert tags[..i + 1][..i] == tags[..i];
      tagsMap := tagsMap[tags[i].hash := tags[i].name];
      i := i + 1;
    }
    assert tags[..|tags|] == tags;
    tag := None;
    var k := 0;
    while k < |log| && tag == None
      invariant 0 <= k <= |log|
      invariant tag == None ==> FirstTagged(tagsMap, log) == FirstTagged(tagsMap, log[k..])
      invariant tag != None ==> tag == FirstTagged(tagsMap, log)
    {
      assert log[k..][1..] == log[k + 1..];
      if log[k] in tagsMap {
        tag := Some(tagsMap[log[k]]);
      }
      k := k + 1;
    }
  }

  /** The names the tag list holds. */
  function TagNames(tags: seq<TagRef>): set<RefName> {
    set j | 0 <= j < |tags| :: tags[j].name
  }

  /** What the search returns once the fetch and the checkout are behind it:
      a failed tag listing, head lookup or log walk is returned as is; no
      tagged commit is `NoTag`. */
  function SearchOutcome(env: Env): (r: Result<RefName, Error>)
    ensures r.Ok? <==> env.tags.Ok? && env.head == None && env.log.Ok?
                       && FirstTagged(TagMap(env.tags.value), env.log.value).Some?
    ensures r.Ok? ==> r.value in TagNames(env.tags.value)
    ensures r.Err? && env.tags.Ok? && env.head == None && env.log.Ok? ==> r == Err(NoTag)
  {
    if env.tags.Err? then Err(env.tags.error)
    else if env.head.Some? then Err(env.head.value)
    else if env.log.Err? then Err(env.log.error)
    else
      match FirstTagged(TagMap(env.tags.value), env.log.value)
      case None => Err(NoTag)
      case Some(name) =>
        LatestTagChoice(env.tags.value, env.log.value);
        Ok(name)
  }

  /** The part of `getLatestTag` after the checkout, with go-git's answers taken from `env`. */
  method Search(env: Env) returns (r: Result<RefName, Error>)
    ensures r == SearchOutcome(env)
  {
    if env.tags.Err? {
      return Err(env.tags.error);
    }
    if env.head.Some? {
      return Err(env.head.value);
    }
    if env.log.Err? {
      return Err(env.log.error);
    }
    var tag := LatestTag(env.tags.value, env.log.value);
    if tag == None {
      return Err(NoTag);
    }
    return Ok(tag.value);
  }
}
