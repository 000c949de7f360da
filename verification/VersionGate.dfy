/** Objects are replaced only by newer versions. */
module VersionGate {
  import opened Sequences
  import opened Trees
  import opened Wrappers

  /** A version as its dot separated parts, each the number it reads as, or none if it is not one.
      The empty version has no parts. */
  type Version = seq<Option<int>>

  /** A missing version is the lowest one, and a single number is a patch level. */
  function Padded(v: Version): (r: Version)
    ensures |r| > 1
  {
    if v == [] then [Some(0), Some(0), Some(0)] else if |v| == 1 then [Some(0), Some(0)] + v else v
  }

  /** Whether the first list of parts is the larger version. Parts are parsed only as far as needed. */
  function Compare(a: Version, b: Version): Result<bool>
    requires InRange(a, b)
  {
    if a == [] then Ok(false)
    else match a[0]
      case None => Err("invalid version")
      case Some(x) =>
        match b[0]
        case None => Err("invalid version")
        case Some(y) => if x > y then Ok(true) else if x == y then Compare(a[1..], b[1..]) else Ok(false)
  }

  /** The comparison never runs past the end of the second list; otherwise Go panics. */
  predicate InRange(a: Version, b: Version) {
    a == [] || a[0].None? || (b != [] && (b[0] != a[0] || InRange(a[1..], b[1..])))
  }

  method CompareVersion(v1: Version, v2: Version) returns (r: Result<bool>)
    requires InRange(Padded(v1), Padded(v2))
    ensures r == Compare(Padded(v1), Padded(v2))
  {
    var v1Slice, v2Slice := Padded(v1), Padded(v2);
    for index := 0 to |v1Slice|
      invariant index <= |v2Slice|
      invariant InRange(v1Slice[index..], v2Slice[index..])
      invariant Compare(v1Slice[index..], v2Slice[index..]) == Compare(v1Slice, v2Slice)
    {
      var n1 := v1Slice[index];
      if n1.None? {
        return Err("invalid version");
      }
      var n2 := v2Slice[index];
      if n2.None? {
        return Err("invalid version");
      }
      if n1.value > n2.value {
        return Ok(true);
      } else if n1.value < n2.value {
        return Ok(false);
      }
    }
    return Ok(false);
  }

  /** The numbers of a version of three parts. */
  datatype Triple = Triple(major: int, minor: int, patch: int)

  /** The order of versions: major, then minor, then patch. */
  predicate Above(a: Triple, b: Triple) {
    a.major > b.major || (a.major == b.major && (a.minor > b.minor || (a.minor == b.minor && a.patch > b.patch)))
  }

  /** A version with three numeric parts, possibly after padding. */
  predicate WellFormed(v: Version) {
    var p := Padded(v);
    |p| == 3 && p[0].Some? && p[1].Some? && p[2].Some?
  }

  function Numbers(v: Version): Triple
    requires WellFormed(v)
  {
    var p := Padded(v);
    Triple(p[0].value, p[1].value, p[2].value)
  }

  /** On well-formed versions the comparison never fails, and it is the order of their numbers. */
  lemma CompareIsOrder(v1: Version, v2: Version)
    requires WellFormed(v1) && WellFormed(v2)
    ensures InRange(Padded(v1), Padded(v2))
    ensures Compare(Padded(v1), Padded(v2)) == Ok(Above(Numbers(v1), Numbers(v2)))
  {
    var a, b := Padded(v1), Padded(v2);
    assert a[1..][0] == a[1] && a[1..][1..] == a[2..] && a[2..][0] == a[2] && a[2..][1..] == [];
    assert b[1..][0] == b[1] && b[1..][1..] == b[2..] && b[2..][0] == b[2] && b[2..][1..] == [];
    assert InRange(a[2..], b[2..]) && InRange(a[1..], b[1..]);
    assert Compare(a[2..], b[2..]) == Ok(a[2].value > b[2].value);
    assert Compare(a[1..], b[1..]) ==
      if a[1].value > b[1].value then Ok(true)
      else if a[1] == b[1] then Compare(a[2..], b[2..]) else Ok(false);
  }

  /** How a version reads: a missing one as 0.0.0, a single number as a patch level, and three numbers as they are. Two
      parts are not completed. */
  lemma VersionReads(x: int, y: int, z: int)
    ensures WellFormed([]) && Numbers([]) == Triple(0, 0, 0)
    ensures WellFormed([Some(x)]) && Numbers([Some(x)]) == Triple(0, 0, x)
    ensures WellFormed([Some(x), Some(y), Some(z)]) && Numbers([Some(x), Some(y), Some(z)]) == Triple(x, y, z)
    ensures Padded([Some(x), Some(y)]) == [Some(x), Some(y)]
  {
  }

  /** The first two parts that differ decide, or are refused when one of them is not a number. */
  lemma {:induction false} FirstDifferenceDecides(a: Version, b: Version, k: nat)
    requires InRange(a, b) && k < |a| && k < |b| && forall j | 0 <= j < k :: a[j] == b[j] && a[j].Some?
    ensures a[k].None? || b[k].None? ==> Compare(a, b).Err?
    ensures a[k].Some? && b[k].Some? && a[k] != b[k] ==> Compare(a, b) == Ok(a[k].value > b[k].value)
    decreases k
  {
    if k > 0 {
      assert a[0] == b[0];
      assert forall j | 0 <= j < k - 1 :: a[1..][j] == a[j + 1] && b[1..][j] == b[j + 1];
      FirstDifferenceDecides(a[1..], b[1..], k - 1);
    }
  }

  /** A version is not larger than one that begins with it. */
  lemma {:induction false} PrefixIsNotLarger(a: Version, b: Version)
    requires InRange(a, b) && |a| <= |b| && forall j | 0 <= j < |a| :: a[j] == b[j] && a[j].Some?
    ensures Compare(a, b) == Ok(false)
  {
    if a != [] {
      assert a[0] == b[0];
      assert forall j | 0 <= j < |a| - 1 :: a[1..][j] == a[j + 1] && b[1..][j] == b[j + 1];
      PrefixIsNotLarger(a[1..], b[1..]);
    }
  }

  /** An object as far as updating it is concerned. */
  datatype Obj = Obj(version: Version, isSubscription: bool, spec: Fields)

  /** An object in the cluster, and whether it is being deleted. */
  datatype Stored = Stored(obj: Obj, deleting: bool)

  /** The stored objects, by kind, namespace and name. */
  type Cluster = map<string, Stored>

  /** A subscription keeps the configuration section of the stored one. */
  function WithConfig(o: Obj, stored: Obj): Obj {
    if Get(stored.spec, "config").Null? then o else o.(spec := o.spec["config" := stored.spec["config"]])
  }

  datatype Status = Fine | Failed | Aborted

  /** Applying one object runs without panic. */
  predicate Applicable(c: Cluster, key: string, o: Obj) {
    key in c && !c[key].deleting && !o.isSubscription ==> InRange(Padded(o.version), Padded(c[key].obj.version))
  }

  /** Applying one object: the cluster afterwards, and whether to go on. A version that does not parse
      aborts the whole run. */
  function Apply(c: Cluster, key: string, o: Obj, force: bool): (Cluster, Status)
    requires Applicable(c, key, o)
  {
    if key !in c then (c[key := Stored(o, false)], Fine)
    else if c[key].deleting then (c, Failed)
    else if o.isSubscription then
      var next := WithConfig(o, c[key].obj);
      (if next.spec != c[key].obj.spec then c[key := Stored(next, false)] else c, Fine)
    else match Compare(Padded(o.version), Padded(c[key].obj.version))
      case Err(_) => (c, Aborted)
      case Ok(larger) => (if force || larger then c[key := Stored(o, false)] else c, Fine)
  }

  ghost predicate ApplicableAll(c: Cluster, objs: seq<(string, Obj)>, force: bool)
    decreases |objs|
  {
    objs == [] || (Applicable(c, objs[0].0, objs[0].1) &&
                   ApplicableAll(Apply(c, objs[0].0, objs[0].1, force).0, objs[1..], force))
  }

  /** Applying a list: the cluster afterwards, and how it went. */
  function ApplyAll(c: Cluster, objs: seq<(string, Obj)>, force: bool): (Cluster, Status)
    requires ApplicableAll(c, objs, force)
    decreases |objs|
  {
    if objs == [] then (c, Fine)
    else
      var (c', status) := Apply(c, objs[0].0, objs[0].1, force);
      if status == Aborted then (c', Aborted)
      else
        var (c'', rest) := ApplyAll(c', objs[1..], force);
        (c'', Worse(status, rest))
  }

  /** A run that aborts has aborted, and a failure is not forgotten. */
  function Worse(first: Status, rest: Status): Status {
    if rest == Fine then first else rest
  }

  /** The cluster's objects. */
  class Store {
    var objects: Cluster

    constructor (c: Cluster)
      ensures objects == c
    {
      objects := c;
    }

    method CreateOrUpdateFromYaml(objs: seq<(string, Obj)>, force: bool) returns (status: Status)
      requires ApplicableAll(objects, objs, force)
      modifies this
      ensures (objects, status) == ApplyAll(old(objects), objs, force)
    {
      status := Fine;
      for i := 0 to |objs|
        invariant ApplicableAll(objects, objs[i..], force)
        invariant status != Aborted
        invariant var (all, rest) := ApplyAll(objects, objs[i..], force);
                  ApplyAll(old(objects), objs, force) == (all, Worse(status, rest))
      {
        Suffix(objs, i);
        var (key, o) := objs[i];
        if key !in objects {
          objects := objects[key := Stored(o, false)];
          continue;
        }
        var inCluster := objects[key];
        if inCluster.deleting {
          status := Failed;
          continue;
        }
        var update := force;
        if o.isSubscription {
          o := WithConfig(o, inCluster.obj);
          update := o.spec != inCluster.obj.spec;
        } else {
          var larger := CompareVersion(o.version, inCluster.obj.version);
          if larger.Err? {
            return Aborted;
          }
          if larger.value {
            update := true;
          }
        }
        if update {
          objects := objects[key := Stored(o, false)];
        }
      }
    }
  }

  /** A subscription is driven by its spec instead of its version: the stored spec becomes the applied one
      except for a configuration section that was stored, and applying it again changes nothing. */
  lemma SubscriptionConverges(c: Cluster, key: string, o: Obj, force: bool, k: string)
    requires key in c && !c[key].deleting && o.isSubscription
    ensures var (c', status) := Apply(c, key, o, force);
            && Get(c'[key].obj.spec, k) ==
               (if k == "config" && !Get(c[key].obj.spec, k).Null? then Get(c[key].obj.spec, k) else Get(o.spec, k))
            && Apply(c', key, o, force) == (c', Fine)
            && c'.Keys == c.Keys && forall x | x in c && x != key :: c'[x] == c[x]
  {
  }

  /** A subscription whose spec would stay as it is is not written at all, whatever its version. */
  lemma SameSpecIsNotWritten(c: Cluster, key: string, o: Obj, force: bool)
    requires key in c && !c[key].deleting && o.isSubscription
    requires o.spec == c[key].obj.spec
    ensures Apply(c, key, o, force) == (c, Fine)
  {
    var stored := c[key].obj.spec;
    assert !Get(stored, "config").Null? ==> stored["config" := stored["config"]] == stored;
  }

  /** The highest of a version and any others. */
  function Highest(v: Triple, vs: seq<Triple>): Triple
    decreases |vs|
  {
    if vs == [] then v else Highest(if Above(vs[0], v) then vs[0] else v, vs[1..])
  }

  /** It is one of them, and none is above it. */
  lemma {:induction false} HighestIsMaximum(v: Triple, vs: seq<Triple>)
    ensures var h := Highest(v, vs); (h == v || h in vs) && !Above(v, h) && forall w | w in vs :: !Above(w, h)
    decreases |vs|
  {
    if vs != [] {
      HighestIsMaximum(if Above(vs[0], v) then vs[0] else v, vs[1..]);
      assert forall w | w in vs :: w == vs[0] || w in vs[1..];
    }
  }

  /** What is applied under `key` is no subscription and has a well-formed version. Other objects may be
      anything. */
  ghost predicate Versioned(objs: seq<(string, Obj)>, key: string) {
    forall x | x in objs && x.0 == key :: !x.1.isSubscription && WellFormed(x.1.version)
  }

  /** The versions applied to one object, in order. */
  function VersionsOf(objs: seq<(string, Obj)>, key: string): seq<Triple>
    requires Versioned(objs, key)
  {
    if objs == [] then []
    else
      assert objs[0] in objs;
      (if objs[0].0 == key then [Numbers(objs[0].1.version)] else []) + VersionsOf(objs[1..], key)
  }

  /** One unforced application, seen from the object under `key`. */
  lemma ApplyOnce(c: Cluster, k: string, o: Obj, key: string)
    requires Applicable(c, k, o) && key in c && WellFormed(c[key].obj.version)
    requires k == key ==> !o.isSubscription && WellFormed(o.version)
    ensures var (c', status) := Apply(c, k, o, false);
            && key in c' && c'[key].deleting == c[key].deleting && WellFormed(c'[key].obj.version)
            && Numbers(c'[key].obj.version) ==
               (if k == key && !c[key].deleting && Above(Numbers(o.version), Numbers(c[key].obj.version))
                then Numbers(o.version)
                else Numbers(c[key].obj.version))
  {
    if k == key && !c[key].deleting {
      CompareIsOrder(o.version, c[key].obj.version);
    }
  }

  lemma HighestStep(v: Triple, objs: seq<(string, Obj)>, key: string)
    requires Versioned(objs, key) && objs != []
    ensures objs[0] in objs && Versioned(objs[1..], key)
    ensures Highest(v, VersionsOf(objs, key)) ==
      Highest(if objs[0].0 == key && Above(Numbers(objs[0].1.version), v) then Numbers(objs[0].1.version) else v,
              VersionsOf(objs[1..], key))
  {
    assert objs[0] in objs;
    var rest := VersionsOf(objs[1..], key);
    if objs[0].0 == key {
      var w := Numbers(objs[0].1.version);
      assert VersionsOf(objs, key) == [w] + rest;
      assert ([w] + rest)[1..] == rest;
    } else {
      assert VersionsOf(objs, key) == rest;
    }
  }

  lemma AboveIsTransitive(a: Triple, b: Triple, c: Triple)
    requires !Above(a, b) && !Above(b, c)
    ensures !Above(a, c)
  {
  }

  /** The stored version of an object never falls in a run of unforced applications, whatever else the run
      applies, and even when it aborts. */
  lemma {:induction false} VersionNeverFalls(c: Cluster, objs: seq<(string, Obj)>, key: string)
    requires ApplicableAll(c, objs, false) && Versioned(objs, key) && key in c && WellFormed(c[key].obj.version)
    ensures var c' := ApplyAll(c, objs, false).0;
            key in c' && WellFormed(c'[key].obj.version) &&
              !Above(Numbers(c[key].obj.version), Numbers(c'[key].obj.version))
    decreases |objs|
  {
    if objs != [] {
      assert objs[0] in objs;
      ApplyOnce(c, objs[0].0, objs[0].1, key);
      var c' := Apply(c, objs[0].0, objs[0].1, false).0;
      VersionNeverFalls(c', objs[1..], key);
      AboveIsTransitive(Numbers(c[key].obj.version), Numbers(c'[key].obj.version),
                        Numbers(ApplyAll(c', objs[1..], false).0[key].obj.version));
    }
  }

  /** A run that does not abort leaves the highest of the version stored at first and all those applied; an
      object that is being deleted keeps its version. */
  lemma {:induction false} VersionsOnlyRise(c: Cluster, objs: seq<(string, Obj)>, key: string)
    requires ApplicableAll(c, objs, false) && Versioned(objs, key) && key in c && WellFormed(c[key].obj.version)
    requires ApplyAll(c, objs, false).1 != Aborted
    ensures var c', v := ApplyAll(c, objs, false).0, Numbers(c[key].obj.version);
            key in c' && WellFormed(c'[key].obj.version) &&
            Numbers(c'[key].obj.version) == if c[key].deleting then v else Highest(v, VersionsOf(objs, key))
    decreases |objs|
  {
    if objs != [] {
      assert objs[0] in objs;
      ApplyOnce(c, objs[0].0, objs[0].1, key);
      VersionsOnlyRise(Apply(c, objs[0].0, objs[0].1, false).0, objs[1..], key);
      HighestStep(Numbers(c[key].obj.version), objs, key);
    }
  }

  /** An object that is not stored yet, wherever it comes first in the run, ends at the highest version
      applied. */
  lemma {:induction false} FirstVersionStored(c: Cluster, objs: seq<(string, Obj)>, key: string)
    requires ApplicableAll(c, objs, false) && Versioned(objs, key) && key !in c
    requires ApplyAll(c, objs, false).1 != Aborted
    ensures var c', vs := ApplyAll(c, objs, false).0, VersionsOf(objs, key);
            if vs == [] then key !in c'
            else key in c' && WellFormed(c'[key].obj.version) && Numbers(c'[key].obj.version) == Highest(vs[0], vs[1..])
    decreases |objs|
  {
    if objs != [] {
      assert objs[0] in objs;
      var c' := Apply(c, objs[0].0, objs[0].1, false).0;
      var vs := VersionsOf(objs[1..], key);
      if objs[0].0 == key {
        VersionsOnlyRise(c', objs[1..], key);
        assert ([Numbers(objs[0].1.version)] + vs)[1..] == vs;
      } else {
        FirstVersionStored(c', objs[1..], key);
        assert [] + vs == vs;
      }
    }
  }

  /** The last object applied under a key. */
  function LastApplied(objs: seq<(string, Obj)>, key: string): Option<Obj>
    decreases |objs|
  {
    if objs == [] then None
    else
      var later := LastApplied(objs[1..], key);
      if later.Some? then later else if objs[0].0 == key then Some(objs[0].1) else None
  }

  /** A forced run that does not abort leaves the object that was applied last, whatever its version; an object that is
      being deleted stays. */
  lemma {:induction false} ForcedRunStoresLast(c: Cluster, objs: seq<(string, Obj)>, key: string)
    requires ApplicableAll(c, objs, true) && key in c && forall x | x in objs && x.0 == key :: !x.1.isSubscription
    requires ApplyAll(c, objs, true).1 != Aborted
    ensures var c' := ApplyAll(c, objs, true).0;
            key in c' &&
            if c[key].deleting then c'[key] == c[key]
            else c'[key] == Stored(GetOr(LastApplied(objs, key), c[key].obj), false)
    decreases |objs|
  {
    if objs != [] {
      assert objs[0] in objs;
      ForcedRunStoresLast(Apply(c, objs[0].0, objs[0].1, true).0, objs[1..], key);
    }
  }

  /** A run that does not abort fails exactly when it applies an object that is being deleted, and is fine otherwise. */
  lemma {:induction false} RunFailsIff(c: Cluster, objs: seq<(string, Obj)>, force: bool)
    requires ApplicableAll(c, objs, force) && ApplyAll(c, objs, force).1 != Aborted
    ensures ApplyAll(c, objs, force).1 ==
            if exists x :: x in objs && x.0 in c && c[x.0].deleting then Failed else Fine
    decreases |objs|
  {
    if objs != [] {
      var c' := Apply(c, objs[0].0, objs[0].1, force).0;
      RunFailsIff(c', objs[1..], force);
      DeletionStays(c, objs[0].0, objs[0].1, force);
      assert forall x | x in objs :: x == objs[0] || x in objs[1..];
    }
  }

  lemma DeletionStays(c: Cluster, key: string, o: Obj, force: bool)
    requires Applicable(c, key, o)
    ensures var c' := Apply(c, key, o, force).0;
            forall k :: k in c' && c'[k].deleting <==> k in c && c[k].deleting
  {
  }

  /** A version that cannot be compared with the stored one aborts the run and changes nothing, forced or not. */
  lemma UnreadableVersionAborts(c: Cluster, objs: seq<(string, Obj)>, force: bool)
    requires ApplicableAll(c, objs, force) && objs != []
    requires var (key, o) := objs[0];
             key in c && !c[key].deleting && !o.isSubscription &&
             Compare(Padded(o.version), Padded(c[key].obj.version)).Err?
    ensures ApplyAll(c, objs, force) == (c, Aborted)
  {
  }

  /** Three-part versions never make a run stop: it runs to its end whenever the objects that meet a stored one
      have well-formed versions on both sides. */
  lemma {:induction false} WellFormedRunsComplete(c: Cluster, objs: seq<(string, Obj)>)
    requires forall key | key in c :: WellFormed(c[key].obj.version)
    requires forall x | x in objs :: WellFormed(x.1.version)
    ensures ApplicableAll(c, objs, false) && ApplyAll(c, objs, false).1 != Aborted
    decreases |objs|
  {
    if objs != [] {
      var (k, o) := objs[0];
      assert objs[0] in objs;
      if k in c {
        CompareIsOrder(o.version, c[k].obj.version);
      }
      WellFormedRunsComplete(Apply(c, k, o, false).0, objs[1..]);
    }
  }
}
